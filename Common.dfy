/** Values and string operations shared by the front end and the back end:
    an optional value, the two whitespace classes (JavaScript's `trim` and
    Python's `str.strip`), trimming, ASCII lower-casing and literal substring
    search. */
module Common {

  datatype Option<T> = None | Some(value: T)

  /** The characters JavaScript's `String.prototype.trim` removes: the
      WhiteSpace and LineTerminator code points of ECMA-262 (section 12.2 and
      12.3), that is TAB, VT, FF, SP, NBSP, ZWNBSP, the other Zs characters,
      LF, CR, LS and PS. */
  predicate IsJsSpace(c: char) {
    c == '\t' || c == '\n' || c == '\U{000B}' || c == '\U{000C}' || c == '\r'
    || c == ' ' || c == '\U{00A0}' || c == '\U{1680}'
    || ('\U{2000}' <= c <= '\U{200A}')
    || c == '\U{2028}' || c == '\U{2029}' || c == '\U{202F}' || c == '\U{205F}'
    || c == '\U{3000}' || c == '\U{FEFF}'
  }

  /** The characters for which Python's `str.isspace` holds, which
      `str.strip()` removes. It differs from the JavaScript class: it has the
      separators U+001C..U+001F and U+0085, and lacks U+FEFF. */
  predicate IsPySpace(c: char) {
    ('\t' <= c <= '\r') || ('\U{001C}' <= c <= '\U{001F}') || c == ' '
    || c == '\U{0085}' || c == '\U{00A0}' || c == '\U{1680}'
    || ('\U{2000}' <= c <= '\U{200A}')
    || c == '\U{2028}' || c == '\U{2029}' || c == '\U{202F}' || c == '\U{205F}'
    || c == '\U{3000}'
  }

  /** The two whitespace classes the system trims with. */
  datatype SpaceClass = JsSpace | PySpace

  predicate IsSpace(ws: SpaceClass, c: char) {
    match ws
    case JsSpace => IsJsSpace(c)
    case PySpace => IsPySpace(c)
  }

  /** Drops the leading characters of `s` that satisfy `ws`. */
  function TrimStart(s: string, ws: SpaceClass): (r: string)
    ensures |r| <= |s| && r == s[|s| - |r|..]
    ensures r == [] || !IsSpace(ws, r[0])
    ensures forall i :: 0 <= i < |s| - |r| ==> IsSpace(ws, s[i])
  {
    if s != [] && IsSpace(ws, s[0]) then TrimStart(s[1..], ws) else s
  }

  /** Drops the trailing characters of `s` that satisfy `ws`. */
  function TrimEnd(s: string, ws: SpaceClass): (r: string)
    ensures |r| <= |s| && r == s[..|r|]
    ensures r == [] || !IsSpace(ws, r[|r| - 1])
    ensures forall i :: |r| <= i < |s| ==> IsSpace(ws, s[i])
  {
    if s != [] && IsSpace(ws, s[|s| - 1]) then TrimEnd(s[..|s| - 1], ws) else s
  }

  /** Both-ends trimming: what `trim()` and `strip()` do for their own
      whitespace class. */
  function Trim(s: string, ws: SpaceClass): (r: string)
    ensures |r| <= |s|
    ensures r == [] || (!IsSpace(ws, r[0]) && !IsSpace(ws, r[|r| - 1]))
  {
    TrimEnd(TrimStart(s, ws), ws)
  }

  /** Trimming removes whitespace at the two ends and nothing else: the
      result is a stretch of the input with only whitespace around it. */
  lemma TrimKeepsMiddle(s: string, ws: SpaceClass)
    ensures exists a :: TrimmedAt(s, ws, a, Trim(s, ws))
  {
    TrimSplit(s, ws, TrimStart(s, ws), Trim(s, ws));
  }

  lemma TrimSplit(s: string, ws: SpaceClass, t: string, r: string)
    requires |t| <= |s| && t == s[|s| - |t|..] && forall i :: 0 <= i < |s| - |t| ==> IsSpace(ws, s[i])
    requires |r| <= |t| && r == t[..|r|] && forall i :: |r| <= i < |t| ==> IsSpace(ws, t[i])
    ensures TrimmedAt(s, ws, |s| - |t|, r)
  {
    var a := |s| - |t|;
    assert t == s[a..];
    assert r == t[..|r|];
    assert r == s[a..a + |r|] by {
      forall i | 0 <= i < |r| ensures r[i] == s[a + i] {
        assert r[i] == t[i];
      }
    }
    assert forall i :: 0 <= i < a ==> IsSpace(ws, s[i]);
    assert forall i :: a + |r| <= i < |s| ==> IsSpace(ws, s[i]) by {
      forall i | a + |r| <= i < |s| ensures IsSpace(ws, s[i]) {
        assert s[i] == t[i - a];
        assert |r| <= i - a < |t|;
      }
    }
    assert 0 <= a <= |s| - |r|;
    assert TrimmedAt(s, ws, a, r);
  }

  /** `r` is `s` with the whitespace before offset `a` and after `a + |r|`
      removed, and nothing else. */
  ghost predicate TrimmedAt(s: string, ws: SpaceClass, a: int, r: string) {
    0 <= a <= |s| - |r| && r == s[a..a + |r|]
    && (forall i :: 0 <= i < a ==> IsSpace(ws, s[i]))
    && (forall i :: a + |r| <= i < |s| ==> IsSpace(ws, s[i]))
  }

  /** A string that has no whitespace at either end is its own trim. */
  lemma {:induction false} TrimOfTrimmed(s: string, ws: SpaceClass)
    requires s == [] || (!IsSpace(ws, s[0]) && !IsSpace(ws, s[|s| - 1]))
    ensures Trim(s, ws) == s
  {
    assert TrimStart(s, ws) == s;
    assert TrimEnd(s, ws) == s;
  }

  /** Trimming is idempotent. */
  lemma TrimIdempotent(s: string, ws: SpaceClass)
    ensures Trim(Trim(s, ws), ws) == Trim(s, ws)
  {
    TrimOfTrimmed(Trim(s, ws), ws);
  }

  /** JavaScript's `s.trim()`. */
  function JsTrim(s: string): (r: string)
    ensures r == [] || (!IsJsSpace(r[0]) && !IsJsSpace(r[|r| - 1]))
  {
    Trim(s, JsSpace)
  }

  /** Python's `s.strip()` with no argument. */
  function PyStrip(s: string): (r: string)
    ensures r == [] || (!IsPySpace(r[0]) && !IsPySpace(r[|r| - 1]))
  {
    Trim(s, PySpace)
  }

  /** A string trims to the empty string exactly when every character is
      whitespace. */
  lemma TrimEmptyIff(s: string, ws: SpaceClass)
    ensures Trim(s, ws) == [] <==> forall i :: 0 <= i < |s| ==> IsSpace(ws, s[i])
  {
    if Trim(s, ws) != [] {
      var r := Trim(s, ws);
      TrimKeepsMiddle(s, ws);
      var a :| TrimmedAt(s, ws, a, r);
      assert s[a] == r[0];
    }
  }

  /** Lower-cases the ASCII letters A..Z and leaves every other character as
      it is. */
  function LowerChar(c: char): (d: char)
    ensures ('A' <= c <= 'Z') ==> 'a' <= d <= 'z'
    ensures ('A' <= c <= 'Z') ==> d as int == c as int + 32
    ensures !('A' <= c <= 'Z') ==> d == c
  {
    if 'A' <= c <= 'Z' then (c as int + 32) as char else c
  }

  function AsciiLower(s: string): (r: string)
    ensures |r| == |s|
    ensures forall i :: 0 <= i < |s| ==> r[i] == LowerChar(s[i])
  {
    seq(|s|, i requires 0 <= i < |s| => LowerChar(s[i]))
  }

  /** `p` occurs in `s` as a contiguous block: Python's `p in s` and, for a
      pattern without metacharacters, `re.search(p, s)`. */
  predicate Contains(s: string, p: string) {
    exists i | 0 <= i <= |s| - |p| :: OccursAt(s, p, i)
  }

  /** `p` occurs in `s` starting at offset `i`. */
  predicate OccursAt(s: string, p: string, i: int) {
    0 <= i <= |s| - |p| && s[i..i + |p|] == p
  }

  /** JavaScript's `s.startsWith(p)`. */
  predicate StartsWith(s: string, p: string) {
    |p| <= |s| && s[..|p|] == p
  }

  function DigitChar(d: nat): (c: char)
    requires d < 10
    ensures '0' <= c <= '9'
  {
    ('0' as int + d) as char
  }

  /** The decimal digits of `n`, as a template literal prints a number. */
  function DecimalString(n: nat): (r: string)
    ensures |r| > 0
    ensures forall i :: 0 <= i < |r| ==> '0' <= r[i] <= '9'
    ensures r[0] == '0' <==> n == 0
  {
    if n < 10 then [DigitChar(n)] else DecimalString(n / 10) + [DigitChar(n % 10)]
  }

  /** The number a string of decimal digits denotes. */
  function DigitsValue(s: string): nat
    requires forall i :: 0 <= i < |s| ==> '0' <= s[i] <= '9'
  {
    if s == [] then 0
    else DigitsValue(s[..|s| - 1]) * 10 + (s[|s| - 1] as int - '0' as int)
  }

  /** The decimal digits read back as the number they were printed from. */
  lemma {:induction false} DecimalRoundTrip(n: nat)
    ensures DigitsValue(DecimalString(n)) == n
  {
    if n >= 10 {
      DecimalRoundTrip(n / 10);
      var s := DecimalString(n);
      assert s[..|s| - 1] == DecimalString(n / 10);
    }
  }

  /** Distinct numbers print differently. */
  lemma DecimalInjective(a: nat, b: nat)
    ensures DecimalString(a) == DecimalString(b) <==> a == b
  {
    DecimalRoundTrip(a);
    DecimalRoundTrip(b);
  }

  /** How many UTF-16 code units JavaScript stores a character in: one in
      the Basic Multilingual Plane, a surrogate pair above it. */
  function Utf16Units(c: char): (u: nat)
    ensures u == 1 || u == 2
  {
    if c as int < 0x1_0000 then 1 else 2
  }

  /** JavaScript's `s.length`: the number of UTF-16 code units. */
  function Utf16Length(s: string): (n: nat)
    ensures |s| <= n <= 2 * |s|
  {
    if s == [] then 0 else Utf16Units(s[0]) + Utf16Length(s[1..])
  }

  lemma {:induction false} Utf16LengthConcat(a: string, b: string)
    ensures Utf16Length(a + b) == Utf16Length(a) + Utf16Length(b)
  {
    if a != [] {
      assert (a + b)[0] == a[0];
      assert (a + b)[1..] == a[1..] + b;
      Utf16LengthConcat(a[1..], b);
    } else {
      assert a + b == b;
    }
  }
}
