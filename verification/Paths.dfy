/** Absolute Unix paths: lexical cleaning, and the string test that decides whether a resolved
    path lies under an allowed root. */
module Paths {
  import opened Basics

  const SEPARATOR := '/'

  predicate IsAbs(path: string) {
    path != "" && path[0] == SEPARATOR
  }

  /** The text up to the first separator. */
  function Head(path: string): (h: string)
    ensures h <= path
    ensures SEPARATOR !in h
    ensures |h| < |path| ==> path[|h|] == SEPARATOR
  {
    if path == "" || path[0] == SEPARATOR then "" else [path[0]] + Head(path[1..])
  }

  /** strings.Split(path, "/") */
  function Parts(path: string): seq<string> {
    var h := Head(path);
    if |h| == |path| then [h] else [h] + Parts(path[|h| + 1..])
  }

  /** The element stack that lexical cleaning of a rooted path maintains. */
  function Walk(stack: seq<string>, parts: seq<string>): seq<string>
    decreases |parts|
  {
    if parts == [] then stack
    else if parts[0] == "" || parts[0] == "." then Walk(stack, parts[1..])
    else if parts[0] == ".." then Walk(if stack == [] then [] else stack[..|stack| - 1], parts[1..])
    else Walk(stack + [parts[0]], parts[1..])
  }

  function Tail(components: seq<string>): string {
    if components == [] then "" else [SEPARATOR] + components[0] + Tail(components[1..])
  }

  function Render(components: seq<string>): string {
    if components == [] then [SEPARATOR] else Tail(components)
  }

  /** The directory entries a rooted path walks through once "." and ".." are resolved. */
  function Components(path: string): seq<string> {
    Walk([], Parts(path))
  }

  /** filepath.Clean on a rooted path. */
  function Clean(path: string): string
    requires IsAbs(path)
  {
    Render(Components(path))
  }

  predicate IsComponent(c: string) {
    c != "" && c != "." && c != ".." && SEPARATOR !in c
  }

  predicate AreComponents(components: seq<string>) {
    forall i :: 0 <= i < |components| ==> IsComponent(components[i])
  }

  /** A path that cleaning leaves alone. */
  predicate Canonical(path: string) {
    IsAbs(path) && Clean(path) == path
  }

  // ------------------------------------------------------------------ cleaning

  lemma {:induction false} PartsHaveNoSeparator(path: string)
    ensures forall i :: 0 <= i < |Parts(path)| ==> SEPARATOR !in Parts(path)[i]
    decreases |path|
  {
    if |Head(path)| < |path| {
      PartsHaveNoSeparator(path[|Head(path)| + 1..]);
    }
  }

  lemma {:induction false} WalkGivesComponents(stack: seq<string>, parts: seq<string>)
    requires AreComponents(stack)
    requires forall i :: 0 <= i < |parts| ==> SEPARATOR !in parts[i]
    ensures AreComponents(Walk(stack, parts))
    decreases |parts|
  {
    if parts != [] {
      if parts[0] == "" || parts[0] == "." {
        WalkGivesComponents(stack, parts[1..]);
      } else if parts[0] == ".." {
        WalkGivesComponents(if stack == [] then [] else stack[..|stack| - 1], parts[1..]);
      } else {
        WalkGivesComponents(stack + [parts[0]], parts[1..]);
      }
    }
  }

  lemma {:induction false} HeadOf(component: string, rest: string)
    requires SEPARATOR !in component
    requires rest == "" || rest[0] == SEPARATOR
    ensures Head(component + rest) == component
  {
    if component == "" {
      assert component + rest == rest;
    } else {
      assert component[0] in component;
      assert (component + rest)[1..] == component[1..] + rest;
      HeadOf(component[1..], rest);
    }
  }

  lemma {:induction false} PartsOfTail(first: string, components: seq<string>)
    requires SEPARATOR !in first && AreComponents(components)
    ensures Parts(first + Tail(components)) == [first] + components
    decreases |components|
  {
    HeadOf(first, Tail(components));
    if components == [] {
      assert first + Tail(components) == first;
    } else {
      var path := first + Tail(components);
      assert path[|first| + 1..] == components[0] + Tail(components[1..]);
      assert IsComponent(components[0]);
      PartsOfTail(components[0], components[1..]);
      assert components == [components[0]] + components[1..];
    }
  }

  lemma {:induction false} WalkComponents(stack: seq<string>, components: seq<string>)
    requires AreComponents(components)
    ensures Walk(stack, components) == stack + components
    decreases |components|
  {
    if components != [] {
      assert IsComponent(components[0]);
      WalkComponents(stack + [components[0]], components[1..]);
    }
  }

  /** Splitting a rendered component list gives the list back. */
  lemma ComponentsOfRender(components: seq<string>)
    requires AreComponents(components)
    ensures Components(Render(components)) == components
  {
    if components == [] {
      assert Render([]) == "/" && Head("/") == "" && Head("") == "";
      assert "/"[1..] == "" && Parts("/") == [""] + Parts("");
      assert Parts("") == [""];
      assert Walk([], ["", ""]) == Walk([], [""]) == Walk([], []) == [];
    } else {
      PartsOfTail("", components);
      assert "" + Tail(components) == Tail(components);
      assert ([""] + components)[1..] == components;
      WalkComponents([], components);
      assert [] + components == components;
    }
  }

  /** Cleaning yields a canonical path, and canonical paths are exactly the renderings of proper
      component lists. */
  lemma CleanIsCanonical(path: string)
    requires IsAbs(path)
    ensures AreComponents(Components(path))
    ensures Canonical(Clean(path)) && Components(Clean(path)) == Components(path)
  {
    PartsHaveNoSeparator(path);
    WalkGivesComponents([], Parts(path));
    ComponentsOfRender(Components(path));
  }

  // ---------------------------------------------------------- what cleaning resolves

  lemma PartsCons(head: string, rest: string)
    requires SEPARATOR !in head
    ensures Parts(head) == [head]
    ensures Parts(head + ([SEPARATOR] + rest)) == [head] + Parts(rest)
  {
    HeadOf(head, "");
    assert head + "" == head;
    HeadOf(head, [SEPARATOR] + rest);
    assert (head + ([SEPARATOR] + rest))[|head| + 1..] == rest;
  }

  lemma {:induction false} PartsSnoc(path: string, last: string)
    requires SEPARATOR !in last
    ensures Parts(path + [SEPARATOR] + last) == Parts(path) + [last]
    decreases |path|
  {
    var h := Head(path);
    hide Head, Parts;
    if |h| == |path| {
      assert path == h && path + [SEPARATOR] + last == path + ([SEPARATOR] + last);
      PartsCons(path, last);
      PartsCons(last, "");
    } else {
      var rest := path[|h| + 1..];
      assert path == h + ([SEPARATOR] + rest);
      PartsCons(h, rest);
      PartsSnoc(rest, last);
      assert path + [SEPARATOR] + last == h + ([SEPARATOR] + (rest + [SEPARATOR] + last));
      PartsCons(h, rest + [SEPARATOR] + last);
      assert [h] + Parts(rest) + [last] == [h] + (Parts(rest) + [last]);
    }
  }

  lemma {:induction false} WalkSnoc(stack: seq<string>, parts: seq<string>, last: string)
    ensures Walk(stack, parts + [last]) == Walk(Walk(stack, parts), [last])
    decreases |parts|
  {
    if parts == [] {
      assert parts + [last] == [last];
    } else {
      assert (parts + [last])[1..] == parts[1..] + [last];
      WalkSnoc(if parts[0] == "" || parts[0] == "." then stack
               else if parts[0] == ".." then (if stack == [] then [] else stack[..|stack| - 1])
               else stack + [parts[0]], parts[1..], last);
    }
  }

  lemma ComponentsSnoc(path: string, last: string)
    requires SEPARATOR !in last
    ensures Components(path + [SEPARATOR] + last) == Walk(Components(path), [last])
  {
    PartsSnoc(path, last);
    WalkSnoc([], Parts(path), last);
  }

  /** The components of every rooted path, from its last element back: a name goes one down, a blank
      or "." stays, ".." goes one up, and at the root stays there. */
  lemma LastElement(path: string, last: string)
    requires path == "" || IsAbs(path)
    requires SEPARATOR !in last
    ensures Components("") == [] && Components("/") == []
    ensures var before, after := Components(path), Components(path + "/" + last);
      if last == "" || last == "." then after == before
      else if last == ".." then after == if before == [] then [] else before[..|before| - 1]
      else after == before + [last]
  {
    ComponentsSnoc(path, last);
    ComponentsOfRender([]);
    assert Parts("") == [""];
  }

  /** A step down and up again is no step, so no climb escapes what it was spelled under. */
  lemma DownAndUp(path: string, name: string)
    requires path == "" || IsAbs(path)
    requires IsComponent(name)
    ensures Components(path + "/" + name + "/..") == Components(path)
  {
    LastElement(path, name);
    LastElement(path + "/" + name, "..");
    assert path + "/" + name + "/" + ".." == path + "/" + name + "/..";
    assert path + "/" + name != "" && (path == "" ==> (path + "/" + name)[0] == SEPARATOR);
  }

  /** Cleaned paths spell their components out, each after a slash; the root is a slash alone. */
  lemma {:induction false} RenderSnoc(components: seq<string>, last: string)
    ensures Render([]) == "/"
    ensures Render(components + [last]) == (if components == [] then "" else Render(components)) + "/" + last
  {
    if components == [] {
      assert Tail([last][1..]) == "";
      assert [] + [last] == [last];
    } else {
      assert (components + [last])[1..] == components[1..] + [last];
      RenderSnoc(components[1..], last);
      assert Tail(components[1..] + [last]) == Tail(components[1..]) + ("/" + last);
    }
  }

  // --------------------------------------------------------------- containment

  /** The test the endpoint agent applies to a resolved path. */
  predicate Admits(root: string, resolved: string) {
    resolved == root || root + [SEPARATOR] <= resolved
  }

  /** What that test stands for: the root's directories lead to the path. The root "/" is the one
      root for which the string test is narrower. */
  predicate Under(root: seq<string>, path: seq<string>) {
    if root == [] then path == [] else root <= path
  }

  lemma SamePrefix(prefix: string, a: string, b: string)
    ensures prefix + a == prefix + b <==> a == b
    ensures prefix + a + [SEPARATOR] <= prefix + b <==> a + [SEPARATOR] <= b
  {
    assert (prefix + a)[|prefix|..] == a && (prefix + b)[|prefix|..] == b;
    assert (prefix + a + [SEPARATOR])[|prefix|..] == a + [SEPARATOR];
    if prefix + a + [SEPARATOR] <= prefix + b {
      assert (prefix + b)[|prefix|..][..|a| + 1] == (prefix + b)[..|prefix| + |a| + 1][|prefix|..];
    }
    if a + [SEPARATOR] <= b {
      assert prefix + b == prefix + (a + [SEPARATOR]) + b[|a| + 1..];
    }
  }

  lemma HeadOfPrefix(r: string, rest: string, whole: string)
    requires SEPARATOR !in r
    requires rest != "" && rest[0] == SEPARATOR && r + rest <= whole
    ensures Head(whole) == r
  {
    assert whole == r + whole[|r|..];
    assert whole[|r|] == (r + rest)[|r|];
    HeadOf(r, whole[|r|..]);
  }

  /** Comparing two renderings compares their first components and then the rest. */
  lemma FirstComponent(r: string, rt: string, p: string, pt: string)
    requires SEPARATOR !in r && SEPARATOR !in p
    requires (rt == "" || rt[0] == SEPARATOR) && (pt == "" || pt[0] == SEPARATOR)
    ensures r + rt == p + pt <==> r == p && rt == pt
    ensures r + rt + [SEPARATOR] <= p + pt <==> r == p && rt + [SEPARATOR] <= pt
  {
    HeadOf(r, rt);
    HeadOf(p, pt);
    if r == p {
      SamePrefix(r, rt, pt);
    } else {
      assert r + rt + [SEPARATOR] == r + (rt + [SEPARATOR]);
      if r + rt + [SEPARATOR] <= p + pt {
        HeadOfPrefix(r, rt + [SEPARATOR], p + pt);
      }
    }
  }

  lemma {:induction false} TailPrefix(root: seq<string>, path: seq<string>)
    requires AreComponents(root) && AreComponents(path)
    ensures (Tail(path) == Tail(root) || Tail(root) + [SEPARATOR] <= Tail(path)) <==> root <= path
    decreases |root|
  {
    hide Tail;
    TailShape(root);
    TailShape(path);
    if root == [] {
      assert Tail(root) + [SEPARATOR] == [SEPARATOR];
    } else if path != [] {
      var rt, pt := Tail(root[1..]), Tail(path[1..]);
      TailShape(root[1..]);
      TailShape(path[1..]);
      assert IsComponent(root[0]) && IsComponent(path[0]);
      FirstComponent(root[0], rt, path[0], pt);
      SamePrefix([SEPARATOR], root[0] + rt, path[0] + pt);
      TailPrefix(root[1..], path[1..]);
      assert root <= path <==> root[0] == path[0] && root[1..] <= path[1..];
    }
  }

  lemma TailShape(components: seq<string>)
    ensures components == [] ==> Tail(components) == ""
    ensures components != [] ==>
      Tail(components) == [SEPARATOR] + (components[0] + Tail(components[1..])) && Tail(components)[0] == SEPARATOR
  {
    if components != [] {
      assert Tail(components) == [SEPARATOR] + (components[0] + Tail(components[1..]));
    }
  }

  /** The string test accepts exactly when the root's components lead to the path. */
  lemma AdmitsIsContainment(root: string, resolved: string)
    requires Canonical(root) && Canonical(resolved)
    ensures Admits(root, resolved) <==> Under(Components(root), Components(resolved))
  {
    CleanIsCanonical(root);
    CleanIsCanonical(resolved);
    var r, p := Components(root), Components(resolved);
    if r == [] {
      if p != [] {
        assert IsComponent(p[0]) && p[0][0] in p[0];
        assert resolved[1] == p[0][0];
      }
    } else {
      TailPrefix(r, p);
      if p == [] {
        assert |root| >= 2;
      }
    }
  }

  // ---------------------------------------------------------------- resolution

  /** What following symbolic links gives. */
  datatype Followed = Found(path: string) | Missing | Broken

  datatype PathError = PathRequired | NotAbsolute | NotFound | Unresolvable | NotAllowed

  /** Links lead from rooted paths to rooted paths. */
  ghost predicate RootedLinks(follow: string -> Followed) {
    forall p :: IsAbs(p) && follow(p).Found? ==> IsAbs(follow(p).path)
  }

  /** Resolves configured roots once; a root whose links cannot be followed is only cleaned. */
  method CanonicalizeRoots(roots: seq<string>, follow: string -> Followed) returns (canonical: seq<string>)
    requires RootedLinks(follow)
    requires forall i :: 0 <= i < |roots| ==> IsAbs(roots[i])
    ensures |canonical| == |roots|
    ensures forall i :: 0 <= i < |roots| ==>
      && Canonical(canonical[i])
      && canonical[i] == Clean(if follow(roots[i]).Found? then follow(roots[i]).path else roots[i])
  {
    canonical := [];
    for i := 0 to |roots|
      invariant |canonical| == i
      invariant forall k :: 0 <= k < i ==>
        && Canonical(canonical[k])
        && canonical[k] == Clean(if follow(roots[k]).Found? then follow(roots[k]).path else roots[k])
    {
      var root := roots[i];
      var followed := follow(root);
      if followed.Found? {
        root := followed.path;
      }
      CleanIsCanonical(root);
      canonical := canonical + [Clean(root)];
    }
  }

  /** Resolves a requested path and admits it iff the directories of some allowed root lead to where
      it really is: no spelling with "." or "..", no link and no sibling that shares a name prefix
      gets past. */
  method ResolveAllowed(roots: seq<string>, path: string, follow: string -> Followed) returns (r: Result<string, PathError>)
    requires RootedLinks(follow)
    requires forall i :: 0 <= i < |roots| ==> Canonical(roots[i])
    ensures r.Ok? <==>
      && IsAbs(path) && follow(Clean(path)).Found?
      && exists i :: 0 <= i < |roots| && Under(Components(roots[i]), Components(follow(Clean(path)).path))
    ensures r.Ok? ==> r.value == Clean(follow(Clean(path)).path) && Canonical(r.value)
    ensures r == Err(PathRequired) <==> path == ""
    ensures r == Err(NotAbsolute) <==> path != "" && path[0] != '/'
    ensures r == Err(NotFound) <==> IsAbs(path) && follow(Clean(path)).Missing?
    ensures r == Err(Unresolvable) <==> IsAbs(path) && follow(Clean(path)).Broken?
  {
    if path == "" {
      return Err(PathRequired);
    }
    if !IsAbs(path) {
      return Err(NotAbsolute);
    }
    CleanIsCanonical(path);
    var followed := follow(Clean(path));
    if !followed.Found? {
      return Err(if followed.Missing? then NotFound else Unresolvable);
    }
    var resolved := Clean(followed.path);
    CleanIsCanonical(followed.path);
    for i := 0 to |roots|
      invariant forall k :: 0 <= k < i ==> !Under(Components(roots[k]), Components(followed.path))
    {
      AdmitsIsContainment(roots[i], resolved);
      if Admits(roots[i], resolved) {
        return Ok(resolved);
      }
    }
    return Err(NotAllowed);
  }
}
