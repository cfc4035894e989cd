/** The limit/offset query parameters shared by the listing handlers, and the LIMIT/OFFSET slice. */
module Paging {
  import opened Base
  import opened Text

  const DefaultLimit: int := 20
  const MaxLimit: int := 100

  /** A query value counts only when it is non-empty, parses, and passes the handler's range test. */
  predicate Accepts(param: string, lo: int, hi: int) {
    param != "" && Atoi(param).Some? && lo <= Atoi(param).value <= hi
  }

  /** limit: 20 unless the value parses to a number in 1..100. */
  function Limit(param: string): (n: int)
    ensures 1 <= n <= MaxLimit
    ensures Accepts(param, 1, MaxLimit) ==> n == Atoi(param).value
    ensures !Accepts(param, 1, MaxLimit) ==> n == DefaultLimit
  {
    if param != "" then
      match Atoi(param)
      case Some(n) => if 0 < n <= MaxLimit then n else DefaultLimit
      case None => DefaultLimit
    else DefaultLimit
  }

  /** offset: 0 unless the value parses to a number that is not negative. */
  function Offset(param: string): (n: nat)
    ensures Accepts(param, 0, MaxInt64) ==> n == Atoi(param).value
    ensures !Accepts(param, 0, MaxInt64) ==> n == 0
  {
    if param != "" then
      match Atoi(param)
      case Some(n) => if n >= 0 then n else 0
      case None => 0
    else 0
  }

  /** A client that sends back the numbers it was given gets them unchanged; anything out of
      range falls back to the defaults. */
  lemma ParamsRoundTrip(n: nat)
    requires n <= MaxInt64
    ensures 1 <= n <= MaxLimit ==> Limit(ShowNat(n)) == n
    ensures n > MaxLimit || n == 0 ==> Limit(ShowNat(n)) == DefaultLimit
    ensures Offset(ShowNat(n)) == n
    ensures n > 0 ==> Limit("-" + ShowNat(n)) == DefaultLimit && Offset("-" + ShowNat(n)) == 0
  {
    AtoiShowNat(n);
  }

  /** ORDER BY ... LIMIT limit OFFSET offset over rows already in order. */
  function Page<T>(rows: seq<T>, limit: nat, offset: nat): (r: seq<T>)
    ensures |r| == if offset >= |rows| then 0 else if |rows| - offset <= limit then |rows| - offset else limit
    ensures forall i :: 0 <= i < |r| ==> r[i] == rows[offset + i]
  {
    if offset >= |rows| then []
    else
      var rest := rows[offset..];
      if |rest| <= limit then rest else rest[..limit]
  }

  /** Two consecutive pages of one size make one page of twice the size. */
  lemma PagesConcatenate<T>(rows: seq<T>, limit: nat, offset: nat)
    ensures Page(rows, limit, offset) + Page(rows, limit, offset + limit) == Page(rows, 2 * limit, offset)
  {
    var a, b, c := Page(rows, limit, offset), Page(rows, limit, offset + limit), Page(rows, 2 * limit, offset);
    assert |a + b| == |c|;
    forall i | 0 <= i < |c| ensures (a + b)[i] == c[i] {
      if i >= |a| {
        assert (a + b)[i] == b[i - |a|];
      }
    }
  }
}
