/** The JavaScript string built-ins the controllers rely on:
    `String.prototype.split` with a one-character separator, `parts[k] || ''`,
    and `parseInt(s, 10)`. */
module Text {
  import opened Wrappers

  /** Index of the first `c` in `s`, or `|s|` when `s` has none. */
  function IndexOf(s: string, c: char): (i: nat)
    ensures i <= |s|
    ensures forall k :: 0 <= k < i ==> s[k] != c
    ensures i < |s| ==> s[i] == c
  {
    if s == [] then 0
    else if s[0] == c then 0
    else 1 + IndexOf(s[1..], c)
  }

  /** `piece` is the text of `s` before its first `c` (all of `s` when it has none). */
  ghost predicate IsFirstPiece(piece: string, s: string, c: char) {
    && |piece| <= |s|
    && piece == s[..|piece|]
    && c !in piece
    && (|piece| < |s| ==> s[|piece|] == c)
  }

  /** The text before the first `c` is determined by `s` and `c`. */
  lemma FirstPieceUnique(p: string, q: string, s: string, c: char)
    requires IsFirstPiece(p, s, c) && IsFirstPiece(q, s, c)
    ensures p == q
  {
  }

  /** A piece free of `c`, followed by `c` or by nothing, is the first piece. */
  lemma FirstPieceOfConcat(p: string, rest: string, c: char)
    requires c !in p
    requires rest == [] || rest[0] == c
    ensures IsFirstPiece(p, p + rest, c)
  {
    assert (p + rest)[..|p|] == p;
  }

  /** `s.split(c)`: the pieces of `s` between occurrences of `c`; never empty. */
  function Split(s: string, c: char): (parts: seq<string>)
    ensures |parts| >= 1
    ensures forall k :: 0 <= k < |parts| ==> c !in parts[k]
    ensures IsFirstPiece(parts[0], s, c)
    decreases |s|
  {
    var i := IndexOf(s, c);
    assert c !in s[..i] by {
      forall k | 0 <= k < i ensures s[..i][k] != c { }
    }
    if i == |s| then [s] else [s[..i]] + Split(s[i + 1..], c)
  }

  /** `parts.join(c)`, the inverse of `Split`. */
  function Join(parts: seq<string>, c: char): string {
    if parts == [] then ""
    else if |parts| == 1 then parts[0]
    else parts[0] + [c] + Join(parts[1..], c)
  }

  /** Splitting loses nothing: joining the pieces back gives the original text. */
  lemma {:induction false} JoinSplit(s: string, c: char)
    ensures Join(Split(s, c), c) == s
    decreases |s|
  {
    var i := IndexOf(s, c);
    if i < |s| {
      var rest := Split(s[i + 1..], c);
      JoinSplit(s[i + 1..], c);
      assert Split(s, c) == [s[..i]] + rest;
      assert ([s[..i]] + rest)[1..] == rest;
      assert s == s[..i] + [c] + s[i + 1..];
    }
  }

  /** Joining separator-free pieces and splitting again gives the same pieces back. */
  lemma {:induction false} SplitJoin(parts: seq<string>, c: char)
    requires |parts| >= 1
    requires forall k :: 0 <= k < |parts| ==> c !in parts[k]
    ensures Split(Join(parts, c), c) == parts
    decreases |parts|
  {
    var p := parts[0];
    if |parts| == 1 {
      assert IndexOf(p, c) == |p|;
    } else {
      var tail := Join(parts[1..], c);
      var s := p + [c] + tail;
      assert Join(parts, c) == s;
      assert IndexOf(s, c) == |p| by {
        assert forall k :: 0 <= k < |p| ==> s[k] == p[k];
        assert s[|p|] == c;
      }
      assert s[|p| + 1..] == tail;
      assert s[..|p|] == p;
      SplitJoin(parts[1..], c);
      assert Split(s, c) == [p] + parts[1..];
    }
  }

  /** Where the second piece of `s.split(c)` comes from. */
  lemma SecondPieceOfSplit(s: string, c: char)
    ensures IndexOf(s, c) == |s| <==> |Split(s, c)| == 1
    ensures IndexOf(s, c) < |s| ==> IsFirstPiece(Split(s, c)[1], s[IndexOf(s, c) + 1..], c)
  {
    var i := IndexOf(s, c);
    if i < |s| {
      var rest := Split(s[i + 1..], c);
      assert Split(s, c) == [s[..i]] + rest;
      assert Split(s, c)[1] == rest[0];
    } else {
      assert Split(s, c) == [s];
    }
  }

  /** `parts[k] || ''`: a missing piece reads as the empty string. */
  function Field(parts: seq<string>, k: nat): string {
    if k < |parts| then parts[k] else ""
  }

  /** `s.split(c)[1] || ''`: the text between the first and the second `c`,
      or "" when `s` has no `c`. */
  function SecondPiece(s: string, c: char): (piece: string)
    ensures IndexOf(s, c) == |s| ==> piece == ""
    ensures IndexOf(s, c) < |s| ==> IsFirstPiece(piece, s[IndexOf(s, c) + 1..], c)
  {
    SecondPieceOfSplit(s, c);
    Field(Split(s, c), 1)
  }

  // ---------------------------------------------------------------------------
  // parseInt(s, 10)

  predicate IsDigit(ch: char) {
    '0' <= ch <= '9'
  }

  predicate AllDigits(ds: string) {
    forall k :: 0 <= k < |ds| ==> IsDigit(ds[k])
  }

  /** The white space `parseInt` skips before the number (the ASCII part of it). */
  predicate IsSpace(ch: char) {
    ch == ' ' || ch == '\t' || ch == '\n' || ch == '\r'
  }

  function TrimStart(s: string): (t: string)
    ensures |t| <= |s| && t == s[|s| - |t|..]
    ensures t != [] ==> !IsSpace(t[0])
  {
    if s != [] && IsSpace(s[0]) then TrimStart(s[1..]) else s
  }

  /** Length of the run of decimal digits at the start of `s`. */
  function DigitRun(s: string): (n: nat)
    ensures n <= |s|
    ensures forall k :: 0 <= k < n ==> IsDigit(s[k])
    ensures AllDigits(s[..n])
    ensures n < |s| ==> !IsDigit(s[n])
  {
    if s != [] && IsDigit(s[0]) then 1 + DigitRun(s[1..]) else 0
  }

  function DigitValue(ch: char): nat
    requires IsDigit(ch)
  {
    ch as int - '0' as int
  }

  /** The number a string of decimal digits denotes. */
  function DigitsValue(ds: string): nat
    requires AllDigits(ds)
  {
    if ds == [] then 0
    else DigitsValue(ds[..|ds| - 1]) * 10 + DigitValue(ds[|ds| - 1])
  }

  /** `t` without its leading sign, if it has one. */
  function Unsigned(t: string): string {
    if t != [] && (t[0] == '-' || t[0] == '+') then t[1..] else t
  }

  /** `parseInt(s, 10)`: optional leading white space, an optional sign, then the
      longest run of digits; `None` stands for NaN (no digit where one is due).
      The value is the digit run's, negated exactly when the sign is a minus. */
  function ParseInt(s: string): (r: Option<int>)
    ensures var u := Unsigned(TrimStart(s));
            r.None? <==> u == [] || !IsDigit(u[0])
    ensures r.Some? ==>
              var t := TrimStart(s);
              var u := Unsigned(t);
              && t != []
              && (t[0] == '-' ==> r.value == -(DigitsValue(u[..DigitRun(u)]) as int))
              && (t[0] != '-' ==> r.value == DigitsValue(u[..DigitRun(u)]))
  {
    ParseSigned(TrimStart(s))
  }

  function ParseSigned(t: string): Option<int> {
    if t == [] then None
    else if t[0] == '-' then Negate(ParseDigits(t[1..]))
    else if t[0] == '+' then ParseDigits(t[1..])
    else ParseDigits(t)
  }

  function Negate(v: Option<int>): Option<int> {
    match v
    case Some(n) => Some(-n)
    case None => None
  }

  /** The value of the digits at the start of `t`, `None` when `t` does not start with one. */
  function ParseDigits(t: string): Option<int> {
    var n := DigitRun(t);
    if n == 0 then None else Some(DigitsValue(t[..n]))
  }

  function DigitChar(d: nat): (ch: char)
    requires d < 10
    ensures IsDigit(ch)
  {
    ('0' as int + d) as char
  }

  /** The decimal text of a natural number, without leading zeros. */
  function ShowNat(n: nat): (s: string)
    ensures |s| >= 1
    ensures AllDigits(s)
  {
    if n < 10 then [DigitChar(n)] else ShowNat(n / 10) + [DigitChar(n % 10)]
  }

  /** The decimal text of an integer, as `String(n)` writes it. */
  function ShowInt(n: int): string {
    if n < 0 then "-" + ShowNat(-n) else ShowNat(n)
  }

  lemma {:induction false} DigitsValueShowNat(n: nat)
    ensures DigitsValue(ShowNat(n)) == n
  {
    if n >= 10 {
      var s := ShowNat(n);
      assert s[..|s| - 1] == ShowNat(n / 10);
      DigitsValueShowNat(n / 10);
    }
  }

  lemma DigitRunOfDigits(s: string)
    requires AllDigits(s)
    ensures DigitRun(s) == |s|
  {
  }

  lemma TrimStartUnchanged(s: string)
    requires s != [] && !IsSpace(s[0])
    ensures TrimStart(s) == s
  {
  }

  lemma ParseDigitsOfDigits(ds: string)
    requires |ds| >= 1
    requires AllDigits(ds)
    ensures ParseDigits(ds) == Some(DigitsValue(ds) as int)
  {
    DigitRunOfDigits(ds);
    assert ds[..|ds|] == ds;
  }

  /** A minus sign in front of a text negates what the text parses as. */
  lemma ParseIntMinus(ds: string)
    requires ds != [] && IsDigit(ds[0])
    ensures ParseInt("-" + ds) == Negate(ParseDigits(ds))
  {
    var neg := "-" + ds;
    TrimStartUnchanged(neg);
    assert neg[1..] == ds;
  }

  /** `parseInt` reads back every integer written in decimal. */
  lemma ParseIntShowInt(n: int)
    ensures ParseInt(ShowInt(n)) == Some(n)
  {
    var m: nat := if n < 0 then -n else n;
    var digits := ShowNat(m);
    DigitsValueShowNat(m);
    ParseDigitsOfDigits(digits);
    assert IsDigit(digits[0]);
    if n < 0 {
      ParseIntMinus(digits);
    } else {
      TrimStartUnchanged(digits);
    }
  }
}
