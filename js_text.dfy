/**
 * The JavaScript string primitives the inventory UI relies on: `trim`, `toLowerCase`,
 * `includes`, `startsWith`, `split` with a one-character separator, `replace(/\s+/g, '')`,
 * `parseInt` (no radix) and `Number.prototype.toString` on integers.
 */
module JsText {
  import opened Wrappers
  import opened Seqs

  /** The code points JavaScript treats as white space or line terminators
      (used by `trim`, by `parseInt` and by the regular-expression class `\s`). */
  predicate IsSpace(c: char) {
    var n := c as int;
    n == 0x09 || n == 0x0A || n == 0x0B || n == 0x0C || n == 0x0D || n == 0x20 || n == 0xA0 ||
    n == 0x1680 || (0x2000 <= n <= 0x200A) || n == 0x2028 || n == 0x2029 || n == 0x202F ||
    n == 0x205F || n == 0x3000 || n == 0xFEFF
  }

  predicate AllSpace(s: string) {
    forall i :: 0 <= i < |s| ==> IsSpace(s[i])
  }

  /** `s.trimStart()`: drops the leading white space and nothing else. */
  function TrimStart(s: string): (r: string)
    ensures |r| <= |s| && r == s[|s| - |r|..]
    ensures AllSpace(s[..|s| - |r|])
    ensures r != [] ==> !IsSpace(r[0])
  {
    var n := LeadingSpaces(s);
    assert s[..n] == s[..|s| - |s[n..]|];
    s[n..]
  }

  /** The number of white-space characters `s` starts with. */
  function LeadingSpaces(s: string): (n: nat)
    ensures n <= |s|
    ensures forall i :: 0 <= i < n ==> IsSpace(s[i])
    ensures n < |s| ==> !IsSpace(s[n])
  {
    if s != [] && IsSpace(s[0]) then 1 + LeadingSpaces(s[1..]) else 0
  }

  /** Drops the trailing white space and nothing else. */
  function TrimEnd(s: string): (r: string)
    ensures |r| <= |s| && r == s[..|r|]
    ensures AllSpace(s[|r|..])
    ensures r != [] ==> !IsSpace(r[|r| - 1])
  {
    if s != [] && IsSpace(s[|s| - 1]) then TrimEnd(s[..|s| - 1]) else s
  }

  /** `s.trim()`: a contiguous slice of `s` that begins and ends with a non-space character. */
  function Trim(s: string): (r: string)
    ensures |r| <= |s|
    ensures r != [] ==> !IsSpace(r[0]) && !IsSpace(r[|r| - 1])
    ensures r == [] <==> AllSpace(s)
    ensures |r| <= |TrimStart(s)| && r == s[|s| - |TrimStart(s)|..][..|r|]
    ensures AllSpace(s[..|s| - |TrimStart(s)|]) && AllSpace(s[|s| - |TrimStart(s)| + |r|..])
  {
    var t := TrimStart(s);
    var r := TrimEnd(t);
    assert r == [] ==> s == s[..|s| - |t|] + t && AllSpace(t);
    assert s[|s| - |t| + |r|..] == t[|r|..];
    r
  }

  lemma {:induction false} TrimOfTrimmed(s: string)
    requires s == [] || (!IsSpace(s[0]) && !IsSpace(s[|s| - 1]))
    ensures Trim(s) == s
  {
  }

  /** Trimming twice is trimming once. */
  lemma TrimIdempotent(s: string)
    ensures Trim(Trim(s)) == Trim(s)
  {
    TrimOfTrimmed(Trim(s));
  }

  /** ASCII lower-casing of one character. */
  function LowerChar(c: char): char {
    if 'A' <= c <= 'Z' then (c as int + 32) as char else c
  }

  /** `s.toLowerCase()` over the ASCII letters. */
  function ToLower(s: string): (r: string)
    ensures |r| == |s|
    ensures forall i :: 0 <= i < |s| ==> r[i] == LowerChar(s[i])
  {
    seq(|s|, i requires 0 <= i < |s| => LowerChar(s[i]))
  }

  lemma ToLowerIdempotent(s: string)
    ensures ToLower(ToLower(s)) == ToLower(s)
  {
    assert forall i :: 0 <= i < |s| ==> LowerChar(LowerChar(s[i])) == LowerChar(s[i]);
  }

  predicate StartsWith(s: string, prefix: string) {
    |prefix| <= |s| && s[..|prefix|] == prefix
  }

  /** `s.includes(sub)`. */
  predicate Includes(s: string, sub: string)
    decreases |s|
  {
    StartsWith(s, sub) || (s != [] && Includes(s[1..], sub))
  }

  /** `includes` means: `sub` occurs in `s` at some position. */
  lemma {:induction false} IncludesAt(s: string, sub: string)
    ensures Includes(s, sub) <==> exists i :: 0 <= i <= |s| && StartsWith(s[i..], sub)
  {
    assert s[0..] == s;
    if s != [] {
      IncludesAt(s[1..], sub);
      if Includes(s[1..], sub) {
        var i :| 0 <= i <= |s[1..]| && StartsWith(s[1..][i..], sub);
        assert s[1..][i..] == s[i + 1..];
      }
      if i :| 0 <= i <= |s| && StartsWith(s[i..], sub) {
        if i > 0 {
          assert s[1..][i - 1..] == s[i..];
        }
      }
    }
  }

  /** Every string includes the empty string. */
  lemma IncludesEmpty(s: string)
    ensures Includes(s, "")
  {
  }

  /** `s.replace(/\s+/g, '')`: every white-space character removed. */
  function RemoveSpaces(s: string): (r: string)
    ensures |r| <= |s|
    ensures forall i :: 0 <= i < |r| ==> !IsSpace(r[i])
  {
    if s == [] then []
    else if IsSpace(s[0]) then RemoveSpaces(s[1..])
    else [s[0]] + RemoveSpaces(s[1..])
  }

  /** White-space removal works piece by piece, keeping the other characters in order. */
  lemma {:induction false} RemoveSpacesAppend(a: string, b: string)
    ensures RemoveSpaces(a + b) == RemoveSpaces(a) + RemoveSpaces(b)
    decreases |a|
  {
    if a != [] {
      assert (a + b)[0] == a[0] && (a + b)[1..] == a[1..] + b;
      RemoveSpacesAppend(a[1..], b);
      if !IsSpace(a[0]) {
        ConcatAssoc([a[0]], RemoveSpaces(a[1..]), RemoveSpaces(b));
      }
    } else {
      assert a + b == b;
    }
  }

  /** One character: a white-space character is dropped, any other kept. */
  lemma RemoveSpacesChar(c: char)
    ensures RemoveSpaces([c]) == if IsSpace(c) then [] else [c]
  {
    assert [c][1..] == [];
  }

  /** Lower-casing works piece by piece. */
  lemma ToLowerAppend(a: string, b: string)
    ensures ToLower(a + b) == ToLower(a) + ToLower(b)
  {
  }

  /** A string without white space is left as it is. */
  lemma {:induction false} RemoveSpacesNoSpace(s: string)
    requires forall i :: 0 <= i < |s| ==> !IsSpace(s[i])
    ensures RemoveSpaces(s) == s
  {
    if s != [] {
      RemoveSpacesNoSpace(s[1..]);
    }
  }

  // ---------------------------------------------------------------------------
  // split / join with a one-character separator

  /** The index of the first `c` in `s`, or `|s|` when there is none. */
  function IndexOf(s: string, c: char): (i: nat)
    ensures i <= |s|
    ensures i < |s| ==> s[i] == c
    ensures forall k :: 0 <= k < i ==> s[k] != c
  {
    if s == [] then 0
    else if s[0] == c then 0
    else 1 + IndexOf(s[1..], c)
  }

  /** `s.split(c)`: the pieces between the separators, never an empty list. */
  function Split(s: string, c: char): (r: seq<string>)
    decreases |s|
    ensures |r| >= 1
    ensures forall k :: 0 <= k < |r| ==> c !in r[k]
    ensures r[0] == s[..IndexOf(s, c)]
  {
    var i := IndexOf(s, c);
    if i == |s| then [s] else [s[..i]] + Split(s[i + 1..], c)
  }

  /** `pieces.join(c)`. */
  function Join(pieces: seq<string>, c: char): string
    requires |pieces| >= 1
  {
    if |pieces| == 1 then pieces[0] else pieces[0] + [c] + Join(pieces[1..], c)
  }

  /** Joining the pieces of a split gives back the string. */
  lemma {:induction false} JoinSplit(s: string, c: char)
    ensures Join(Split(s, c), c) == s
    decreases |s|
  {
    var i := IndexOf(s, c);
    var r := Split(s, c);
    if i == |s| {
      assert r == [s];
    } else {
      var tail := s[i + 1..];
      assert r == [s[..i]] + Split(tail, c);
      assert r[0] == s[..i] && r[1..] == Split(tail, c);
      JoinSplit(tail, c);
      assert Join(r, c) == r[0] + [c] + Join(r[1..], c);
      assert s == s[..i] + [c] + tail;
    }
  }

  /** Splitting a join gives back the pieces, when no piece holds the separator. */
  lemma {:induction false} SplitJoin(pieces: seq<string>, c: char)
    requires |pieces| >= 1
    requires forall k :: 0 <= k < |pieces| ==> c !in pieces[k]
    ensures Split(Join(pieces, c), c) == pieces
  {
    var s := Join(pieces, c);
    if |pieces| == 1 {
      IndexOfAbsent(s, c);
    } else {
      var p := pieces[0];
      var rest := Join(pieces[1..], c);
      assert s == p + [c] + rest;
      IndexOfAfter(p, rest, c);
      assert s[..|p|] == p;
      assert s[|p| + 1..] == rest;
      SplitJoin(pieces[1..], c);
    }
  }

  lemma {:induction false} IndexOfAbsent(s: string, c: char)
    requires c !in s
    ensures IndexOf(s, c) == |s|
  {
    if s != [] {
      IndexOfAbsent(s[1..], c);
    }
  }

  lemma {:induction false} IndexOfAfter(p: string, rest: string, c: char)
    requires c !in p
    ensures IndexOf(p + [c] + rest, c) == |p|
  {
    if p != [] {
      assert (p + [c] + rest)[1..] == p[1..] + [c] + rest;
      IndexOfAfter(p[1..], rest, c);
    }
  }

  // ---------------------------------------------------------------------------
  // parseInt and Number.prototype.toString

  predicate IsDigit(c: char, base: nat) {
    ('0' <= c <= '9') || (base == 16 && (('a' <= c <= 'f') || ('A' <= c <= 'F')))
  }

  function DigitValue(c: char): nat {
    if '0' <= c <= '9' then c as int - '0' as int
    else if 'a' <= c <= 'f' then c as int - 'a' as int + 10
    else if 'A' <= c <= 'F' then c as int - 'A' as int + 10
    else 0
  }

  /** The length of the longest run of digits of the given base at the start of `s`. */
  function DigitRun(s: string, base: nat): (n: nat)
    ensures n <= |s|
    ensures forall i :: 0 <= i < n ==> IsDigit(s[i], base)
    ensures n < |s| ==> !IsDigit(s[n], base)
  {
    if s != [] && IsDigit(s[0], base) then 1 + DigitRun(s[1..], base) else 0
  }

  /** The number the digit string denotes, most significant digit first. */
  function DigitsValue(ds: string, base: nat): nat {
    if ds == [] then 0 else DigitsValue(ds[..|ds| - 1], base) * base + DigitValue(ds[|ds| - 1])
  }

  /** What `parseInt` reads after the leading white space: a sign, a base and the
      text where the digits start. */
  datatype Numeral = Numeral(negative: bool, base: nat, digits: string)

  function ScanNumeral(s: string): Numeral {
    ReadSign(TrimStart(s))
  }

  /** The sign and base prefix at the start of already trimmed text. */
  function ReadSign(t: string): Numeral {
    var negative := t != [] && t[0] == '-';
    var body := if t != [] && (t[0] == '-' || t[0] == '+') then t[1..] else t;
    if |body| >= 2 && body[0] == '0' && (body[1] == 'x' || body[1] == 'X')
    then Numeral(negative, 16, body[2..])
    else Numeral(negative, 10, body)
  }

  /** `parseInt(s)` without a radix: leading white space, an optional sign, an optional
      `0x`/`0X` prefix selecting base 16, then the longest digit prefix; `None` is NaN. */
  function ParseInt(s: string): Option<int> {
    ParseNumeral(ScanNumeral(s))
  }

  /** The value of the longest digit prefix of a scanned numeral; `None` when it is empty. */
  function ParseNumeral(m: Numeral): Option<int> {
    var n := DigitRun(m.digits, m.base);
    if n == 0 then None
    else
      var v: int := DigitsValue(m.digits[..n], m.base);
      Some(if m.negative then -v else v)
  }

  /** `parseInt(s) || 0`: NaN becomes 0. */
  function OrZero(parsed: Option<int>): int {
    parsed.GetOr(0)
  }

  function DigitChar(d: nat): char
    requires d < 10
  {
    ('0' as int + d) as char
  }

  /** Decimal digits of a natural number, without leading zeros. */
  function NatToString(n: nat): (r: string)
    ensures |r| >= 1
    ensures forall i :: 0 <= i < |r| ==> '0' <= r[i] <= '9'
    ensures r[0] == '0' ==> n == 0 && |r| == 1
  {
    if n < 10 then [DigitChar(n)] else NatToString(n / 10) + [DigitChar(n % 10)]
  }

  /** `n.toString()` for an integer. */
  function IntToString(n: int): string {
    if n < 0 then "-" + NatToString(-n) else NatToString(n)
  }

  lemma {:induction false} NatToStringValue(n: nat)
    ensures DigitsValue(NatToString(n), 10) == n
  {
    var r := NatToString(n);
    if n >= 10 {
      NatToStringValue(n / 10);
      assert r[..|r| - 1] == NatToString(n / 10);
    }
  }

  lemma {:induction false} DigitRunAllDigits(s: string)
    requires forall i :: 0 <= i < |s| ==> '0' <= s[i] <= '9'
    ensures DigitRun(s, 10) == |s|
  {
    if s != [] {
      DigitRunAllDigits(s[1..]);
    }
  }

  lemma ScanIntToString(n: int)
    ensures ScanNumeral(IntToString(n)) == Numeral(n < 0, 10, NatToString(if n < 0 then -n else n))
  {
    var s := IntToString(n);
    assert TrimStart(s) == s;
    if n < 0 {
      assert s[1..] == NatToString(-n);
    }
  }

  /** `parseInt(n.toString())` is `n`: the quantity put into an edit field reads back unchanged. */
  lemma ParseIntOfIntToString(n: int)
    ensures ParseInt(IntToString(n)) == Some(n)
  {
    var m: nat := if n < 0 then -n else n;
    var numeral := Numeral(n < 0, 10, NatToString(m));
    ScanIntToString(n);
    assert ParseInt(IntToString(n)) == ParseNumeral(numeral);
    ParseAllDigits(numeral);
    NatToStringValue(m);
  }

  /** A decimal numeral made only of digits is read whole. */
  lemma ParseAllDigits(m: Numeral)
    requires m.base == 10 && m.digits != [] && forall i :: 0 <= i < |m.digits| ==> '0' <= m.digits[i] <= '9'
    ensures ParseNumeral(m) == Some(if m.negative then -(DigitsValue(m.digits, 10) as int) else DigitsValue(m.digits, 10) as int)
  {
    DigitRunAllDigits(m.digits);
    assert m.digits[..|m.digits|] == m.digits;
  }

  /** `parseInt` is negative only when the first non-space character is a minus sign. */
  lemma ParseIntNegative(s: string)
    requires ParseInt(s).Some? && ParseInt(s).value < 0
    ensures TrimStart(s) != [] && TrimStart(s)[0] == '-'
  {
  }

  /** A string without any decimal digit parses to NaN. */
  lemma ParseIntNoDigit(s: string)
    requires forall i :: 0 <= i < |s| ==> !('0' <= s[i] <= '9')
    ensures ParseInt(s) == None
  {
    ScanNoDigit(s);
    var m := ScanNumeral(s);
    NoDigitRun(m.digits);
    assert ParseInt(s) == ParseNumeral(m);
  }

  lemma ScanNoDigit(s: string)
    requires forall i :: 0 <= i < |s| ==> !('0' <= s[i] <= '9')
    ensures ScanNumeral(s).base == 10
    ensures forall i :: 0 <= i < |ScanNumeral(s).digits| ==> !('0' <= ScanNumeral(s).digits[i] <= '9')
  {
    var t := TrimStart(s);
    assert t == s[|s| - |t|..];
    assert forall i :: 0 <= i < |t| ==> !('0' <= t[i] <= '9');
    ReadSignNoDigit(t);
  }

  lemma ReadSignNoDigit(t: string)
    requires forall i :: 0 <= i < |t| ==> !('0' <= t[i] <= '9')
    ensures ReadSign(t).base == 10
    ensures forall i :: 0 <= i < |ReadSign(t).digits| ==> !('0' <= ReadSign(t).digits[i] <= '9')
  {
    var body := if t != [] && (t[0] == '-' || t[0] == '+') then t[1..] else t;
    assert forall i :: 0 <= i < |body| ==> !('0' <= body[i] <= '9');
  }

  lemma NoDigitRun(ds: string)
    requires forall i :: 0 <= i < |ds| ==> !('0' <= ds[i] <= '9')
    ensures DigitRun(ds, 10) == 0
  {
  }
}
