/**
 * The few JavaScript string built-ins the system relies on, with their
 * ECMAScript semantics written out: `includes`, `indexOf`, `replace` with a
 * string pattern, `startsWith`/`endsWith`, `trim`, `toLowerCase` (ASCII letters
 * only), `padStart(2, '0')`, `join`, `String(n)` for integers and `parseInt`
 * without a radix, and Node's `path.basename` for a POSIX path.
 */
module JsStrings {
  import opened Wrappers

  /** `p` occurs in `s` starting at index `i`. */
  predicate OccursAt(s: string, p: string, i: nat)
  {
    i + |p| <= |s| && s[i..i + |p|] == p
  }

  /** `s.startsWith(p)` */
  predicate StartsWith(s: string, p: string)
  {
    OccursAt(s, p, 0)
  }

  /** `s.endsWith(p)` */
  predicate EndsWith(s: string, p: string)
  {
    |p| <= |s| && s[|s| - |p|..] == p
  }

  /** `s.indexOf(p, k)`: the leftmost occurrence of `p` at or after `k`, or -1. */
  function IndexFrom(s: string, p: string, k: nat): (r: int)
    decreases |s| - k
    ensures r == -1 <==> forall i: nat :: k <= i ==> !OccursAt(s, p, i)
    ensures r != -1 ==> k <= r && OccursAt(s, p, r)
    ensures r != -1 ==> forall i: nat :: k <= i < r ==> !OccursAt(s, p, i)
  {
    if k + |p| > |s| then -1
    else if s[k..k + |p|] == p then assert OccursAt(s, p, k); k
    else IndexFrom(s, p, k + 1)
  }

  /** `s.indexOf(p)` */
  function IndexOf(s: string, p: string): int
  {
    IndexFrom(s, p, 0)
  }

  /** `s.includes(p)` */
  predicate Includes(s: string, p: string)
  {
    IndexOf(s, p) != -1
  }

  lemma IncludesIff(s: string, p: string)
    ensures Includes(s, p) <==> exists i: nat :: OccursAt(s, p, i)
  {
  }

  /**
   * `s.replace(p, rep)` with a string pattern: only the leftmost occurrence is
   * replaced; without one, `s` is returned unchanged.
   */
  function ReplaceFirst(s: string, p: string, rep: string): (r: string)
    ensures !Includes(s, p) ==> r == s
    ensures Includes(s, p) ==> var i := IndexOf(s, p);
      (forall j: nat :: j < i ==> !OccursAt(s, p, j)) && r == s[..i] + rep + s[i + |p|..]
  {
    var i := IndexOf(s, p);
    if i == -1 then s else s[..i] + rep + s[i + |p|..]
  }

  /** ECMAScript WhiteSpace and LineTerminator code points: what `trim` and `parseInt` skip. */
  predicate IsSpace(c: char)
  {
    c == '\t' || c == '\n' || c == '\U{000B}' || c == '\U{000C}' || c == '\r' || c == ' '
    || c == '\U{00A0}' || c == '\U{1680}' || ('\U{2000}' <= c <= '\U{200A}')
    || c == '\U{2028}' || c == '\U{2029}' || c == '\U{202F}' || c == '\U{205F}'
    || c == '\U{3000}' || c == '\U{FEFF}'
  }

  /** ECMAScript LineTerminator: the code points that `.` in a regular expression does not match. */
  predicate IsLineTerminator(c: char)
  {
    c == '\n' || c == '\r' || c == '\U{2028}' || c == '\U{2029}'
  }

  function TrimStart(s: string): (r: string)
    ensures |r| <= |s| && r == s[|s| - |r|..]
    ensures r == [] || !IsSpace(r[0])
    ensures forall i :: 0 <= i < |s| - |r| ==> IsSpace(s[i])
  {
    if s != [] && IsSpace(s[0]) then TrimStart(s[1..]) else s
  }

  function TrimEnd(s: string): (r: string)
    ensures |r| <= |s| && r == s[..|r|]
    ensures r == [] || !IsSpace(r[|r| - 1])
    ensures forall i :: |r| <= i < |s| ==> IsSpace(s[i])
  {
    if s != [] && IsSpace(s[|s| - 1]) then TrimEnd(s[..|s| - 1]) else s
  }

  /** `s.trim()` */
  function Trim(s: string): string
  {
    TrimEnd(TrimStart(s))
  }

  /** `s.trim() === ''` exactly when every character of `s` is white space. */
  lemma TrimEmptyIff(s: string)
    ensures Trim(s) == [] <==> forall i :: 0 <= i < |s| ==> IsSpace(s[i])
  {
  }

  function LowerChar(c: char): char
  {
    if 'A' <= c <= 'Z' then (c as int + 32) as char else c
  }

  /** `s.toLowerCase()`, restricted to the ASCII letters. */
  function ToLower(s: string): (r: string)
    ensures |r| == |s|
    ensures forall i :: 0 <= i < |s| ==> r[i] == LowerChar(s[i])
  {
    seq(|s|, i requires 0 <= i < |s| => LowerChar(s[i]))
  }

  predicate IsDigit(c: char)
  {
    '0' <= c <= '9'
  }

  /** The whole of `s` matches `/^\d+$/`. */
  predicate AllDigits(s: string)
  {
    |s| > 0 && forall i :: 0 <= i < |s| ==> IsDigit(s[i])
  }

  /** The value of `c` as a digit in the given radix (10 or 16), or -1 when it is not one. */
  function DigitIn(c: char, radix: nat): (d: int)
    ensures d == -1 || 0 <= d < radix || (radix < 10 && d < 16)
  {
    if '0' <= c <= '9' && (c as int - '0' as int) < radix then c as int - '0' as int
    else if radix == 16 && 'a' <= c <= 'f' then c as int - 'a' as int + 10
    else if radix == 16 && 'A' <= c <= 'F' then c as int - 'A' as int + 10
    else -1
  }

  /** The longest prefix of `s` made of digits of the radix. */
  function DigitPrefix(s: string, radix: nat): (r: string)
    ensures |r| <= |s| && r == s[..|r|]
    ensures forall i :: 0 <= i < |r| ==> DigitIn(r[i], radix) >= 0
    ensures |r| < |s| ==> DigitIn(s[|r|], radix) == -1
  {
    if s != [] && DigitIn(s[0], radix) >= 0 then [s[0]] + DigitPrefix(s[1..], radix) else []
  }

  /** The number written by the digit string `ds` in the radix. */
  function NumeralValue(ds: string, radix: nat): int
  {
    if ds == [] then 0
    else NumeralValue(ds[..|ds| - 1], radix) * radix + (var d := DigitIn(ds[|ds| - 1], radix); if d < 0 then 0 else d)
  }

  /** The value of the longest digit prefix of `u` in the radix; None when there is no digit. */
  function DigitsValue(u: string, radix: nat): Option<int>
  {
    var ds := DigitPrefix(u, radix);
    if ds == [] then None else Some(NumeralValue(ds, radix))
  }

  /** `parseInt` after the sign: base 16 after a `0x`/`0X` prefix, base 10 otherwise. */
  function ParseUnsigned(u: string): Option<int>
  {
    if |u| >= 2 && u[0] == '0' && (u[1] == 'x' || u[1] == 'X') then DigitsValue(u[2..], 16)
    else DigitsValue(u, 10)
  }

  function Negate(v: Option<int>): Option<int>
  {
    match v
    case None => None
    case Some(x) => Some(-x)
  }

  /**
   * `parseInt(s)` without a radix: skip leading white space, take an optional
   * sign, then read the longest digit prefix; None stands for `NaN`.
   */
  function ParseInt(s: string): Option<int>
  {
    var t := TrimStart(s);
    if t != [] && t[0] == '-' then Negate(ParseUnsigned(t[1..]))
    else if t != [] && t[0] == '+' then ParseUnsigned(t[1..])
    else ParseUnsigned(t)
  }

  /** `parseInt(s) || 0`: `NaN` (and zero) become 0. */
  function ParseIntOrZero(s: string): int
  {
    ParseInt(s).GetOr(0)
  }

  /** `parseInt(x) || 0` on a cell that may be missing (`parseInt(undefined)` is `NaN`). */
  function ParseCellOrZero(cell: Option<string>): int
  {
    match cell
    case None => 0
    case Some(s) => ParseIntOrZero(s)
  }

  function DigitChar(d: nat): (c: char)
    requires d < 10
    ensures IsDigit(c) && DigitIn(c, 10) == d
  {
    ('0' as int + d) as char
  }

  /** `String(n)` for a non-negative integer. */
  function NatToString(n: nat): (r: string)
    ensures AllDigits(r)
    ensures r[0] == '0' ==> n == 0 && |r| == 1
    ensures n < 10 ==> |r| == 1
    ensures 10 <= n < 100 ==> |r| == 2
  {
    if n < 10 then [DigitChar(n)] else NatToString(n / 10) + [DigitChar(n % 10)]
  }

  /** `String(n)` for any integer. */
  function IntToString(n: int): string
  {
    if n < 0 then "-" + NatToString(-n) else NatToString(n)
  }

  /** Reading back the decimal digits that `String(n)` writes gives `n`. */
  lemma {:induction false} ValueOfNatToString(n: nat)
    ensures NumeralValue(NatToString(n), 10) == n
  {
    if n >= 10 {
      ValueOfNatToString(n / 10);
      var s := NatToString(n);
      assert s[..|s| - 1] == NatToString(n / 10);
    }
  }

  lemma DigitPrefixOfDigits(s: string)
    requires forall i :: 0 <= i < |s| ==> IsDigit(s[i])
    ensures DigitPrefix(s, 10) == s
  {
    if s != [] {
      DigitPrefixOfDigits(s[1..]);
    }
  }

  lemma TrimStartNoSpace(s: string)
    requires s != [] && (IsDigit(s[0]) || s[0] == '-')
    ensures TrimStart(s) == s
  {
  }

  /** An all-digit string without a `0x` prefix is read in base 10. */
  lemma ParseUnsignedOfDigits(s: string)
    requires AllDigits(s)
    requires !(|s| >= 2 && s[0] == '0' && (s[1] == 'x' || s[1] == 'X'))
    ensures ParseUnsigned(s) == Some(NumeralValue(s, 10))
  {
    DigitPrefixOfDigits(s);
  }

  /** `parseInt(String(n))` is `n` for every integer: the CSV round trip of an integer metric. */
  lemma ParseIntOfIntToString(n: int)
    ensures ParseInt(IntToString(n)) == Some(n)
    ensures ParseIntOrZero(IntToString(n)) == n
  {
    var m: nat := if n < 0 then -n else n;
    var ds := NatToString(m);
    ParseUnsignedOfDigits(ds);
    ValueOfNatToString(m);
    var t := IntToString(n);
    TrimStartNoSpace(t);
    if n < 0 {
      assert t[1..] == ds;
    }
  }

  /** An all-digit cell is read by `parseInt` as its decimal value. */
  lemma ParseIntOfDigits(s: string)
    requires AllDigits(s)
    ensures ParseInt(s) == Some(NumeralValue(s, 10))
  {
    TrimStartNoSpace(s);
    ParseUnsignedOfDigits(s);
  }

  /** `n.toString().padStart(2, '0')` */
  function Pad2(s: string): (r: string)
    ensures |s| >= 2 ==> r == s
    ensures |s| < 2 ==> |r| == 2 && r[2 - |s|..] == s && forall i :: 0 <= i < 2 - |s| ==> r[i] == '0'
  {
    if |s| >= 2 then s else if |s| == 1 then "0" + s else "00"
  }

  /** A value below 100 pads to exactly two decimal digits, which read back as the value. */
  lemma Pad2Digits(n: nat)
    requires n < 100
    ensures |Pad2(NatToString(n))| == 2 && AllDigits(Pad2(NatToString(n)))
    ensures NumeralValue(Pad2(NatToString(n)), 10) == n
  {
    ValueOfNatToString(n);
    if n < 10 {
      var p := Pad2(NatToString(n));
      assert p == ['0', DigitChar(n)];
      assert p[..1] == ['0'] && ['0'][..0] == [];
    }
  }

  /** `xs.join(sep)` */
  function Join(xs: seq<string>, sep: string): (r: string)
    ensures xs == [] ==> r == ""
    ensures |xs| == 1 ==> r == xs[0]
  {
    if xs == [] then "" else if |xs| == 1 then xs[0] else xs[0] + sep + Join(xs[1..], sep)
  }

  /** `p` without its trailing `/` characters. */
  function StripTrailingSlashes(p: string): (r: string)
    ensures |r| <= |p| && r == p[..|r|] && (r == [] || r[|r| - 1] != '/')
    ensures forall i :: |r| <= i < |p| ==> p[i] == '/'
  {
    if p != [] && p[|p| - 1] == '/' then StripTrailingSlashes(p[..|p| - 1]) else p
  }

  /** What follows the last `/` of `p` (all of `p` when it has none). */
  function AfterLastSlash(p: string): (r: string)
    ensures '/' !in r
    ensures |r| <= |p| && r == p[|p| - |r|..]
    ensures |r| < |p| ==> p[|p| - |r| - 1] == '/'
  {
    if p == [] then []
    else if p[|p| - 1] == '/' then []
    else AfterLastSlash(p[..|p| - 1]) + [p[|p| - 1]]
  }

  /** `path.basename(p)` for a POSIX path: the last component, ignoring trailing slashes. */
  function Basename(p: string): string
  {
    AfterLastSlash(StripTrailingSlashes(p))
  }

  lemma {:induction false} AfterLastSlashOfJoin(dir: string, name: string)
    requires '/' !in name
    ensures AfterLastSlash(dir + "/" + name) == name
  {
    var p := dir + "/" + name;
    if name != [] {
      assert p[..|p| - 1] == dir + "/" + name[..|name| - 1];
      AfterLastSlashOfJoin(dir, name[..|name| - 1]);
    }
  }

  /** The basename of `dir + "/" + name` is `name` whenever `name` is a plain file name. */
  lemma BasenameOfJoin(dir: string, name: string)
    requires name != [] && '/' !in name
    ensures Basename(dir + "/" + name) == name
  {
    AfterLastSlashOfJoin(dir, name);
    assert name[|name| - 1] in name;
  }
}
