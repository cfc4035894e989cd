/** The string helpers the handlers rely on: Go's strings.TrimSpace, strings.ToLower and strconv.Atoi. */
module Text {
  import opened Base

  /** unicode.IsSpace: the Unicode White_Space characters. */
  predicate IsSpace(c: char) {
    c == ' ' || c == '\t' || c == '\n' || c == '\U{000B}' || c == '\U{000C}' || c == '\r'
    || c == '\U{0085}' || c == '\U{00A0}' || c == '\U{1680}'
    || ('\U{2000}' <= c <= '\U{200A}')
    || c == '\U{2028}' || c == '\U{2029}' || c == '\U{202F}' || c == '\U{205F}' || c == '\U{3000}'
  }

  /** Number of white-space characters at the start of s. */
  function LeadingSpaces(s: string): (n: nat)
    ensures n <= |s|
  {
    if s != [] && IsSpace(s[0]) then 1 + LeadingSpaces(s[1..]) else 0
  }

  /** LeadingSpaces counts exactly the white space before the first other character. */
  lemma {:induction false} LeadingSpacesSpec(s: string)
    ensures forall i :: 0 <= i < LeadingSpaces(s) ==> IsSpace(s[i])
    ensures LeadingSpaces(s) < |s| ==> !IsSpace(s[LeadingSpaces(s)])
  {
    if s != [] && IsSpace(s[0]) {
      LeadingSpacesSpec(s[1..]);
    }
  }

  /** Number of white-space characters at the end of s. */
  function TrailingSpaces(s: string): (n: nat)
    ensures n <= |s|
  {
    if s != [] && IsSpace(s[|s| - 1]) then 1 + TrailingSpaces(s[..|s| - 1]) else 0
  }

  /** TrailingSpaces counts exactly the white space after the last other character. */
  lemma {:induction false} TrailingSpacesSpec(s: string)
    ensures forall i :: |s| - TrailingSpaces(s) <= i < |s| ==> IsSpace(s[i])
    ensures TrailingSpaces(s) < |s| ==> !IsSpace(s[|s| - 1 - TrailingSpaces(s)])
  {
    if s != [] && IsSpace(s[|s| - 1]) {
      TrailingSpacesSpec(s[..|s| - 1]);
    }
  }

  /** strings.TrimSpace: s without its leading and trailing white space. */
  function TrimSpace(s: string): (r: string)
    ensures LeadingSpaces(s) + |r| <= |s|
    ensures r == s[LeadingSpaces(s)..LeadingSpaces(s) + |r|]
  {
    var rest := s[LeadingSpaces(s)..];
    rest[..|rest| - TrailingSpaces(rest)]
  }

  /** TrimSpace keeps a slice of s: everything after it is white space (everything before it is
      LeadingSpaces(s)) and it neither starts nor ends with white space. */
  lemma TrimSpaceSpec(s: string)
    ensures var r := TrimSpace(s);
      && LeadingSpaces(s) + |r| <= |s|
      && r == s[LeadingSpaces(s)..LeadingSpaces(s) + |r|]
      && (forall i :: LeadingSpaces(s) + |r| <= i < |s| ==> IsSpace(s[i]))
      && (r == [] || (!IsSpace(r[0]) && !IsSpace(r[|r| - 1])))
  {
    var lo := LeadingSpaces(s);
    var rest := s[lo..];
    TrimSpaceCut(s);
    TrailingSpacesSpec(rest);
    forall i | lo + |rest| - TrailingSpaces(rest) <= i < |s| ensures IsSpace(s[i]) {
      assert s[i] == rest[i - lo];
    }
  }

  /** TrimSpace(s) is empty exactly when s is all white space. */
  lemma TrimSpaceEmpty(s: string)
    ensures TrimSpace(s) == [] <==> forall i :: 0 <= i < |s| ==> IsSpace(s[i])
  {
    var lo := LeadingSpaces(s);
    var rest := s[lo..];
    TrimSpaceCut(s);
    LeadingSpacesSpec(s);
    TrailingSpacesSpec(rest);
    if lo < |s| {
      assert !IsSpace(rest[0]);
      assert TrailingSpaces(rest) < |rest|;
    } else {
      assert forall i :: 0 <= i < |s| ==> IsSpace(s[i]);
    }
  }

  /** TrimSpace(s) is the slice of s between its leading and its trailing white space, and a
      non-empty result starts and ends with other characters. */
  lemma TrimSpaceCut(s: string)
    ensures var lo := LeadingSpaces(s); var rest := s[lo..];
      && TrailingSpaces(rest) <= |rest|
      && TrimSpace(s) == s[lo..lo + |rest| - TrailingSpaces(rest)]
      && (TrimSpace(s) == [] || (!IsSpace(TrimSpace(s)[0]) && !IsSpace(TrimSpace(s)[|TrimSpace(s)| - 1])))
  {
    var lo := LeadingSpaces(s);
    var rest := s[lo..];
    var t := TrailingSpaces(rest);
    LeadingSpacesSpec(s);
    TrailingSpacesSpec(rest);
    var r := TrimSpace(s);
    assert r == rest[..|rest| - t];
    if r != [] {
      assert r[0] == rest[0] && r[|r| - 1] == rest[|rest| - 1 - t];
    }
  }

  lemma {:induction false} TrimSpaceIdempotent(s: string)
    ensures TrimSpace(TrimSpace(s)) == TrimSpace(s)
  {
    TrimSpaceSpec(s);
    var r := TrimSpace(s);
    if r != [] {
      assert LeadingSpaces(r) == 0;
      assert TrailingSpaces(r) == 0;
    }
  }

  /** unicode.ToLower restricted to ASCII letters. */
  function LowerChar(c: char): (d: char)
    ensures !('A' <= d <= 'Z')
    ensures 'A' <= c <= 'Z' ==> d as int == c as int + 32
    ensures !('A' <= c <= 'Z') ==> d == c
  {
    if 'A' <= c <= 'Z' then (c as int + 32) as char else c
  }

  /** strings.ToLower, letter by letter. */
  function ToLower(s: string): (r: string)
    ensures |r| == |s|
    ensures forall i :: 0 <= i < |s| ==> r[i] == LowerChar(s[i])
    ensures forall i :: 0 <= i < |r| ==> !('A' <= r[i] <= 'Z')
  {
    if s == [] then [] else [LowerChar(s[0])] + ToLower(s[1..])
  }

  lemma ToLowerIdempotent(s: string)
    ensures ToLower(ToLower(s)) == ToLower(s)
  {
  }

  const MinInt64: int := -0x8000_0000_0000_0000
  const MaxInt64: int := 0x7fff_ffff_ffff_ffff

  predicate IsDigit(c: char) { '0' <= c <= '9' }

  predicate AllDigits(s: string) { forall i :: 0 <= i < |s| ==> IsDigit(s[i]) }

  /** The value of a decimal numeral, read left to right. */
  function DigitsValue(s: string): nat
    requires AllDigits(s)
  {
    if s == [] then 0 else DigitsValue(s[..|s| - 1]) * 10 + (s[|s| - 1] as int - '0' as int)
  }

  /** strconv.Atoi: an optional sign and at least one decimal digit, within the 64-bit range. */
  function Atoi(s: string): (r: Option<int>)
    ensures r.Some? ==> MinInt64 <= r.value <= MaxInt64
    ensures r.Some? ==> s != [] && (IsDigit(s[0]) || s[0] == '+' || s[0] == '-')
    ensures r.Some? ==>
              var digits := if s[0] == '+' || s[0] == '-' then s[1..] else s;
              && digits != [] && AllDigits(digits)
              && r.value == if s[0] == '-' then -(DigitsValue(digits) as int) else DigitsValue(digits)
    ensures s == [] || s == "+" || s == "-" ==> r.None?
    ensures forall i :: 1 <= i < |s| && !IsDigit(s[i]) ==> r.None?
    ensures s != [] && !IsDigit(s[0]) && s[0] != '+' && s[0] != '-' ==> r.None?
  {
    if s == [] then None
    else
      var digits := if s[0] == '+' || s[0] == '-' then s[1..] else s;
      if digits == [] || !AllDigits(digits) then None
      else
        var magnitude: int := DigitsValue(digits);
        var v := if s[0] == '-' then -magnitude else magnitude;
        if MinInt64 <= v <= MaxInt64 then Some(v) else None
  }

  /** The decimal numeral of n, as strconv.Itoa writes it. */
  function ShowNat(n: nat): (s: string)
    ensures s != [] && AllDigits(s)
  {
    if n < 10 then [('0' as int + n) as char]
    else ShowNat(n / 10) + [('0' as int + n % 10) as char]
  }

  lemma {:induction false} DigitsValueShowNat(n: nat)
    ensures DigitsValue(ShowNat(n)) == n
  {
    if n >= 10 {
      var s := ShowNat(n);
      assert s[..|s| - 1] == ShowNat(n / 10);
      DigitsValueShowNat(n / 10);
    }
  }

  /** Parsing what Itoa writes gives the number back, with or without a minus sign. */
  lemma AtoiShowNat(n: nat)
    requires n <= MaxInt64
    ensures Atoi(ShowNat(n)) == Some(n)
    ensures Atoi("-" + ShowNat(n)) == Some(-(n as int))
  {
    DigitsValueShowNat(n);
    assert ("-" + ShowNat(n))[1..] == ShowNat(n);
  }
}
