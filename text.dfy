/**
 * The parts of Python's `str`, `os.path` and `pathlib` behaviour that the agent
 * relies on: whitespace stripping, splitting on a separator, substring search,
 * ASCII case mapping, zero-padded decimal formatting, `isalnum`, and path joins.
 */
module Text {

  // ---------------------------------------------------------------------------
  // Character classes
  // ---------------------------------------------------------------------------

  /** Python's `str.isspace()`: exactly the characters `str.strip()` removes. */
  predicate IsSpace(c: char) {
    c == ' ' || ('\t' <= c <= '\r') || ('\U{1c}' <= c <= '\U{1f}')
    || c == '\U{85}' || c == '\U{a0}' || c == '\U{1680}'
    || ('\U{2000}' <= c <= '\U{200a}') || c == '\U{2028}' || c == '\U{2029}'
    || c == '\U{202f}' || c == '\U{205f}' || c == '\U{3000}'
  }

  predicate IsDigit(c: char) {
    '0' <= c <= '9'
  }

  predicate AllDigits(s: string) {
    forall i :: 0 <= i < |s| ==> IsDigit(s[i])
  }

  /**
   * Python's `str.isalnum()` on one character. Exact for code points below
   * U+0100 (ASCII letters and digits, the Latin-1 letters, and the Latin-1
   * superscripts, ordinals and fractions that Python counts as numeric);
   * characters from U+0100 upwards are treated as not alphanumeric.
   */
  predicate IsAlnum(c: char) {
    ('0' <= c <= '9') || ('A' <= c <= 'Z') || ('a' <= c <= 'z')
    || c == '\U{aa}' || c == '\U{b2}' || c == '\U{b3}' || c == '\U{b5}'
    || c == '\U{b9}' || c == '\U{ba}' || ('\U{bc}' <= c <= '\U{be}')
    || ('\U{c0}' <= c <= '\U{d6}') || ('\U{d8}' <= c <= '\U{f6}')
    || ('\U{f8}' <= c <= '\U{ff}')
  }

  // ---------------------------------------------------------------------------
  // Case mapping (ASCII letters only)
  // ---------------------------------------------------------------------------

  function LowerChar(c: char): char {
    if 'A' <= c <= 'Z' then (c as int + 32) as char else c
  }

  function UpperChar(c: char): char {
    if 'a' <= c <= 'z' then (c as int - 32) as char else c
  }

  function Lower(s: string): string {
    seq(|s|, i requires 0 <= i < |s| => LowerChar(s[i]))
  }

  function Upper(s: string): string {
    seq(|s|, i requires 0 <= i < |s| => UpperChar(s[i]))
  }

  /** Lower-casing an upper-cased string gives the lower-cased original. */
  lemma LowerOfUpper(s: string)
    ensures Lower(Upper(s)) == Lower(s)
  {
    forall i | 0 <= i < |s| ensures Lower(Upper(s))[i] == Lower(s)[i] {
      assert Upper(s)[i] == UpperChar(s[i]);
    }
  }

  // ---------------------------------------------------------------------------
  // str.strip()
  // ---------------------------------------------------------------------------

  /** The number of whitespace characters that open `s`. */
  function LeadingSpace(s: string): (n: nat)
    ensures n <= |s|
    ensures forall k :: 0 <= k < n ==> IsSpace(s[k])
    ensures n < |s| ==> !IsSpace(s[n])
  {
    if s != [] && IsSpace(s[0]) then 1 + LeadingSpace(s[1..]) else 0
  }

  /** The number of whitespace characters that close `s`. */
  function TrailingSpace(s: string): (n: nat)
    ensures n <= |s|
    ensures forall k :: |s| - n <= k < |s| ==> IsSpace(s[k])
    ensures n < |s| ==> !IsSpace(s[|s| - 1 - n])
  {
    if s != [] && IsSpace(s[|s| - 1]) then 1 + TrailingSpace(s[..|s| - 1]) else 0
  }

  /**
   * Python's `str.strip()`: the slice of `s` from its first to its last
   * non-whitespace character (empty when there is none).
   */
  function Strip(s: string): (r: string)
    ensures LeadingSpace(s) + |r| <= |s|
    ensures r == s[LeadingSpace(s)..LeadingSpace(s) + |r|]
    ensures r == [] || (!IsSpace(r[0]) && !IsSpace(r[|r| - 1]))
    ensures forall k :: 0 <= k < |s| && !IsSpace(s[k]) ==> LeadingSpace(s) <= k < LeadingSpace(s) + |r|
  {
    var t := s[LeadingSpace(s)..];
    t[..|t| - TrailingSpace(t)]
  }

  /** Stripping keeps only characters of `s`, and every non-space one. */
  lemma StripMembers(s: string)
    ensures forall c :: c in Strip(s) ==> c in s
    ensures forall c :: c in s && !IsSpace(c) ==> c in Strip(s)
  {
    var r, lead := Strip(s), LeadingSpace(s);
    forall c | c in s && !IsSpace(c) ensures c in r {
      var k :| 0 <= k < |s| && s[k] == c;
      assert r[k - lead] == c;
    }
  }

  // ---------------------------------------------------------------------------
  // str.split(sep) for a one-character separator, and its inverse sep.join
  // ---------------------------------------------------------------------------

  /** Python's `sep.join(parts)`. */
  function Join(parts: seq<string>, sep: char): string
    requires |parts| >= 1
  {
    if |parts| == 1 then parts[0] else parts[0] + [sep] + Join(parts[1..], sep)
  }

  /**
   * Python's `s.split(sep)`: the maximal separator-free pieces between
   * occurrences of `sep`, always at least one (`"".split(",") == [""]`).
   */
  function Split(s: string, sep: char): (parts: seq<string>)
    ensures |parts| >= 1
    ensures forall i :: 0 <= i < |parts| ==> sep !in parts[i]
    ensures Join(parts, sep) == s
  {
    if s == [] then [[]]
    else
      var rest := Split(s[1..], sep);
      if s[0] == sep then
        assert Join([[]] + rest, sep) == [] + [sep] + Join(rest, sep);
        [[]] + rest
      else
        var parts := [[s[0]] + rest[0]] + rest[1..];
        assert parts[1..] == rest[1..];
        assert |rest| > 1 ==> Join(parts, sep) == [s[0]] + (rest[0] + [sep] + Join(rest[1..], sep));
        parts
  }

  /** Splitting a separator-free prefix followed by anything glues the prefix
      to the first piece and leaves the other pieces alone. */
  lemma {:induction false} SplitAfterPrefix(p: string, t: string, sep: char)
    requires sep !in p
    ensures Split(p + t, sep) == [p + Split(t, sep)[0]] + Split(t, sep)[1..]
    decreases |p|
  {
    if p == [] {
      var parts := Split(t, sep);
      assert p + t == t;
      assert p + parts[0] == parts[0];
      assert parts == [parts[0]] + parts[1..];
    } else {
      assert (p + t)[1..] == p[1..] + t;
      SplitAfterPrefix(p[1..], t, sep);
      assert [p[0]] + (p[1..] + Split(t, sep)[0]) == p + Split(t, sep)[0];
    }
  }

  /** Splitting undoes joining when no piece contains the separator. */
  lemma {:induction false} SplitJoin(parts: seq<string>, sep: char)
    requires |parts| >= 1
    requires forall i :: 0 <= i < |parts| ==> sep !in parts[i]
    ensures Split(Join(parts, sep), sep) == parts
  {
    if |parts| == 1 {
      SplitAfterPrefix(parts[0], [], sep);
      assert parts[0] + [] == parts[0];
    } else {
      var tail := Join(parts[1..], sep);
      SplitJoin(parts[1..], sep);
      assert Split([sep] + tail, sep) == [[]] + Split(tail, sep) by {
        assert ([sep] + tail)[1..] == tail;
      }
      var rest := Split([sep] + tail, sep);
      assert rest[0] == [] && rest[1..] == parts[1..];
      assert Join(parts, sep) == parts[0] + ([sep] + tail);
      SplitAfterPrefix(parts[0], [sep] + tail, sep);
      assert parts[0] + rest[0] == parts[0];
      assert parts == [parts[0]] + parts[1..];
    }
  }

  // ---------------------------------------------------------------------------
  // Substring search (`sub in s`)
  // ---------------------------------------------------------------------------

  predicate OccursAt(s: string, sub: string, i: nat) {
    i + |sub| <= |s| && s[i..i + |sub|] == sub
  }

  /** Python's `sub in s` for strings. */
  function Contains(s: string, sub: string): bool
    decreases |s|
  {
    if sub <= s then true
    else if s == [] then false
    else Contains(s[1..], sub)
  }

  /** `Contains` finds `sub` exactly when it occurs at some position of `s`. */
  lemma {:induction false} ContainsIffOccurs(s: string, sub: string)
    ensures Contains(s, sub) <==> exists i: nat :: OccursAt(s, sub, i)
    decreases |s|
  {
    if sub <= s {
      assert OccursAt(s, sub, 0);
    } else if s == [] {
      forall i: nat ensures !OccursAt(s, sub, i) {
      }
    } else {
      ContainsIffOccurs(s[1..], sub);
      if Contains(s, sub) {
        var i: nat :| OccursAt(s[1..], sub, i);
        assert s[i + 1..i + 1 + |sub|] == s[1..][i..i + |sub|];
        assert OccursAt(s, sub, i + 1);
      }
      if exists i: nat :: OccursAt(s, sub, i) {
        var i: nat :| OccursAt(s, sub, i);
        assert s[1..][i - 1..i - 1 + |sub|] == s[i..i + |sub|];
        assert OccursAt(s[1..], sub, i - 1);
      }
    }
  }

  // ---------------------------------------------------------------------------
  // Decimal formatting: Python's format(n, '0<width>d')
  // ---------------------------------------------------------------------------

  function DigitChar(d: nat): (c: char)
    requires d < 10
    ensures IsDigit(c)
  {
    ('0' as int + d) as char
  }

  /** The decimal digits of `n`, without leading zeros. */
  function Decimal(n: nat): (s: string)
    ensures 1 <= |s| && AllDigits(s)
  {
    if n < 10 then [DigitChar(n)] else Decimal(n / 10) + [DigitChar(n % 10)]
  }

  /** The number a string of decimal digits denotes (Python's `int(s)`). */
  function DigitsValue(s: string): nat
    requires AllDigits(s)
  {
    if s == [] then 0 else DigitsValue(s[..|s| - 1]) * 10 + (s[|s| - 1] as int - '0' as int)
  }

  /** Reading back the digits of `n` gives `n`. */
  lemma {:induction false} DecimalRoundTrip(n: nat)
    ensures DigitsValue(Decimal(n)) == n
  {
    if n >= 10 {
      DecimalRoundTrip(n / 10);
      var s := Decimal(n);
      assert s[..|s| - 1] == Decimal(n / 10);
    }
  }

  function Zeros(k: nat): (s: string)
    ensures |s| == k && AllDigits(s)
  {
    seq(k, _ => '0')
  }

  /** Leading zeros do not change the value of a digit string. */
  lemma {:induction false} LeadingZerosValue(k: nat, d: string)
    requires AllDigits(d)
    ensures DigitsValue(Zeros(k) + d) == DigitsValue(d)
    decreases |d| + k
  {
    if d == [] {
      assert Zeros(k) + d == Zeros(k);
      if k > 0 {
        assert Zeros(k)[..k - 1] == Zeros(k - 1);
        LeadingZerosValue(k - 1, []);
        assert Zeros(k - 1) + [] == Zeros(k - 1);
      }
    } else {
      var s := Zeros(k) + d;
      assert s[..|s| - 1] == Zeros(k) + d[..|d| - 1];
      LeadingZerosValue(k, d[..|d| - 1]);
    }
  }

  /** `n` in decimal, left-padded with zeros to at least `width` characters. */
  function ZeroPad(n: nat, width: nat): (s: string)
    ensures AllDigits(s)
    ensures |s| == if |Decimal(n)| < width then width else |Decimal(n)|
    ensures DigitsValue(s) == n
  {
    var d := Decimal(n);
    DecimalRoundTrip(n);
    if |d| < width then LeadingZerosValue(width - |d|, d); Zeros(width - |d|) + d else d
  }

  /** Python's `format(n, '0<width>d')`: a minus sign, then zero padding up
      to the full width, then the digits. */
  function FormatInt(n: int, width: nat): string {
    if n < 0 then "-" + ZeroPad(-n, if width > 0 then width - 1 else 0) else ZeroPad(n, width)
  }

  /** Numbers below 10^width are written with exactly `width` digits. */
  lemma DecimalLength(n: nat, width: nat)
    requires 1 <= width
    requires n < Pow10(width)
    ensures |Decimal(n)| <= width
    decreases width
  {
    if n >= 10 {
      DecimalLength(n / 10, width - 1);
    }
  }

  function Pow10(k: nat): nat {
    if k == 0 then 1 else 10 * Pow10(k - 1)
  }

  // ---------------------------------------------------------------------------
  // Paths ('/'-separated, as pathlib prints them in POSIX form)
  // ---------------------------------------------------------------------------

  /** pathlib's `Path(dir) / name` for a single relative component `name`. */
  function JoinPath(dir: string, name: string): string {
    if dir == [] then name
    else if dir[|dir| - 1] == '/' then dir + name
    else dir + "/" + name
  }

  /** The position of the last `c` in `s`, or -1 (Python's `str.rfind`). */
  function LastIndexOf(s: string, c: char): (i: int)
    ensures -1 <= i < |s|
    ensures i >= 0 ==> s[i] == c
    ensures forall k :: i < k < |s| ==> s[k] != c
  {
    if s == [] then -1
    else if s[|s| - 1] == c then |s| - 1
    else LastIndexOf(s[..|s| - 1], c)
  }

  /**
   * The extension part of Python's `ntpath.splitext(path)`: from the last
   * '.' of the final component to the end, unless that component is only
   * dots before it (a dot-file such as ".pfx" has no extension).
   */
  function Extension(path: string): (ext: string)
    ensures |ext| <= |path| && ext == path[|path| - |ext|..]
    ensures ext == [] || (ext[0] == '.' && '.' !in ext[1..])
    ensures '/' !in ext && '\\' !in ext
  {
    var back := LastIndexOf(path, '\\');
    var slash := LastIndexOf(path, '/');
    var sepIndex := if back < slash then slash else back;
    var dotIndex := LastIndexOf(path, '.');
    if sepIndex < dotIndex && exists k :: sepIndex < k < dotIndex && path[k] != '.' then
      assert forall k :: dotIndex < k < |path| ==> path[k] != '.';
      path[dotIndex..]
    else []
  }

  /** Position `k` holds a character other than '.', position `i` after it a
      '.', and no separator follows `k`: both lie in the final component. */
  predicate StemThenDot(path: string, k: int, i: int) {
    0 <= k < i < |path| && path[k] != '.' && path[i] == '.'
    && forall j :: k <= j < |path| ==> path[j] != '/' && path[j] != '\\'
  }

  /** `splitext` finds an extension exactly when the final component holds a
      '.' after some character that is not a '.'. */
  lemma ExtensionFound(path: string)
    ensures Extension(path) != [] <==> exists k, i :: StemThenDot(path, k, i)
  {
    if Extension(path) != [] {
      ExtensionHasWitness(path);
    }
    if exists k, i :: StemThenDot(path, k, i) {
      var k, i :| StemThenDot(path, k, i);
      WitnessGivesExtension(path, k, i);
    }
  }

  lemma ExtensionHasWitness(path: string)
    requires Extension(path) != []
    ensures exists k, i :: StemThenDot(path, k, i)
  {
    var back := LastIndexOf(path, '\\');
    var slash := LastIndexOf(path, '/');
    var sepIndex := if back < slash then slash else back;
    var dotIndex := LastIndexOf(path, '.');
    var k :| sepIndex < k < dotIndex && path[k] != '.';
    assert StemThenDot(path, k, dotIndex);
  }

  lemma WitnessGivesExtension(path: string, k: int, i: int)
    requires StemThenDot(path, k, i)
    ensures Extension(path) != []
  {
    var back := LastIndexOf(path, '\\');
    var slash := LastIndexOf(path, '/');
    var dotIndex := LastIndexOf(path, '.');
    assert back < k && slash < k;
    assert i <= dotIndex;
    assert path[dotIndex..] != [];
  }

  /** A file name `stem + ext` whose stem does not end in '.', '/' or '\\'
      has extension `ext`, for any dot-led, separator-free `ext`. */
  lemma ExtensionOfName(stem: string, ext: string)
    requires |stem| >= 1 && stem[|stem| - 1] != '.' && stem[|stem| - 1] != '/' && stem[|stem| - 1] != '\\'
    requires |ext| >= 1 && ext[0] == '.' && '.' !in ext[1..] && '/' !in ext && '\\' !in ext
    ensures Extension(stem + ext) == ext
  {
    var path := stem + ext;
    var dotIndex := LastIndexOf(path, '.');
    assert path[|stem|] == '.';
    forall k | |stem| < k < |path| ensures path[k] != '.' {
      assert path[k] == ext[1..][k - |stem| - 1];
    }
    assert dotIndex == |stem|;
    var back := LastIndexOf(path, '\\');
    var slash := LastIndexOf(path, '/');
    forall k | |stem| - 1 <= k < |path| ensures path[k] != '\\' && path[k] != '/' {
      if k >= |stem| { assert path[k] == ext[k - |stem|]; }
    }
    assert back < |stem| - 1 && slash < |stem| - 1;
    assert path[|stem| - 1] != '.';
    assert path[dotIndex..] == ext;
  }
}
