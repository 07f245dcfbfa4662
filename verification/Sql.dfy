/** The guard on a model-authored query: one statement, and it reads. */
module Sql {
  import opened Basics
  import opened Text

  const MAX_QUERY_LEN := 8192
  const MAX_QUERY_ROWS := 5000

  datatype QueryError = EmptyQuery | QueryTooLong | ControlCharacter | NotARead | ManyStatements

  /** What may trail a statement without starting another. */
  predicate Trailer(c: char) {
    c == ';' || c == ' ' || c == '\t' || c == '\n' || c == '\r'
  }

  predicate ForbiddenControl(c: char) {
    c == '\0' || (IsControl(c) && c != '\n' && c != '\r' && c != '\t')
  }

  /** The statement without its trailing separators, as the row count wraps it. */
  function Statement(query: string): string {
    TrimRight(TrimSpace(query), Trailer)
  }

  predicate StartsRead(t: Runes, text: string) {
    HasPrefix(Lower(t, text), "select") || HasPrefix(Lower(t, text), "with")
  }

  function ValidateQuery(t: Runes, query: string): Result<(), QueryError> {
    var trimmed := TrimSpace(query);
    if trimmed == "" then Err(EmptyQuery)
    else if ByteLen(trimmed) > MAX_QUERY_LEN then Err(QueryTooLong)
    else if exists i :: 0 <= i < |trimmed| && ForbiddenControl(trimmed[i]) then Err(ControlCharacter)
    else if !StartsRead(t, trimmed) then Err(NotARead)
    else if ';' in TrimRight(trimmed, Trailer) then Err(ManyStatements)
    else Ok(())
  }

  /** Validation sees a query and its trimmed form alike. */
  lemma ValidationIgnoresPadding(t: Runes, query: string)
    ensures ValidateQuery(t, TrimSpace(query)) == ValidateQuery(t, query)
    ensures Statement(TrimSpace(query)) == Statement(query)
  {
    TrimSpaceIdempotent(query);
  }

  lemma KeepsKeyword(t: Runes, text: string, keyword: string)
    requires HasPrefix(Lower(t, text), keyword)
    requires forall c: char :: Trailer(c) ==> c !in keyword
    requires keyword != ""
    ensures HasPrefix(Lower(t, TrimRight(text, Trailer)), keyword)
  {
    TrimRightIsPrefix(text, Trailer);
    var kept := TrimRight(text, Trailer);
    var last := |keyword| - 1;
    assert Lower(t, text)[last] == keyword[last] && keyword[last] in keyword;
    assert !Trailer(text[last]);
    assert |kept| >= |keyword|;
    assert Lower(t, kept) == Lower(t, text)[..|kept|];
  }

  /** The statement a validated query is wrapped as holds no separator, still begins with its
      keyword, and differs from the trimmed query only by trailing separators and blanks. */
  lemma ValidatedIsOneStatement(t: Runes, query: string)
    requires ValidateQuery(t, query).Ok?
    ensures ';' !in Statement(query) && Statement(query) != "" && StartsRead(t, Statement(query))
    ensures Statement(query) <= TrimSpace(query)
    ensures forall i :: |Statement(query)| <= i < |TrimSpace(query)| ==> Trailer(TrimSpace(query)[i])
    ensures forall i :: 0 <= i < |TrimSpace(query)| && TrimSpace(query)[i] == ';' ==> i >= |Statement(query)|
    ensures ByteLen(TrimSpace(query)) <= MAX_QUERY_LEN
    ensures forall i :: 0 <= i < |Statement(query)| && IsControl(Statement(query)[i]) ==>
      Statement(query)[i] == '\n' || Statement(query)[i] == '\r' || Statement(query)[i] == '\t'
  {
    hide ByteLen, TrimSpace, TrimRight, IsControl;
    var text := TrimSpace(query);
    TrimRightIsPrefix(text, Trailer);
    if HasPrefix(Lower(t, text), "select") {
      KeepsKeyword(t, text, "select");
    } else {
      KeepsKeyword(t, text, "with");
    }
  }
}
