/**
 * The string operations the solvers borrow from their standard libraries:
 * splitting, trimming, searching, replacing, reversing, decimal parsing,
 * and Python's index and slice rules.  Strings are sequences of chars;
 * "whitespace" is the ASCII whitespace set (the inputs are ASCII).
 */
module Text {
  import opened Wrappers

  predicate IsDigit(c: char) { '0' <= c <= '9' }

  function DigitValue(c: char): (d: nat)
    requires IsDigit(c)
    ensures d < 10 && c == ('0' as int + d) as char
  {
    c as int - '0' as int
  }

  predicate IsWhitespace(c: char) {
    c == ' ' || c == '\t' || c == '\n' || c == '\r' || c as int == 11 || c as int == 12
  }

  predicate AllDigits(s: string) { forall i :: 0 <= i < |s| ==> IsDigit(s[i]) }

  /** The value of a string of decimal digits, most significant first. */
  function DigitsValue(s: string): nat
    requires AllDigits(s)
  {
    if s == [] then 0 else 10 * DigitsValue(s[..|s| - 1]) + DigitValue(s[|s| - 1])
  }

  /** The decimal digits of n, without leading zeros ("0" for zero). */
  function Decimal(n: nat): (s: string)
    ensures |s| >= 1 && AllDigits(s) && DigitsValue(s) == n
    ensures n >= 10 ==> s[0] != '0'
  {
    var last := [('0' as int + n % 10) as char];
    if n < 10 then last
    else
      var front := Decimal(n / 10);
      assert (front + last)[..|front + last| - 1] == front;
      front + last
  }

  /** The largest `usize` on a 64-bit target. */
  const UsizeMax: nat := 0xFFFF_FFFF_FFFF_FFFF

  /**
   * Rust's `str::parse` for an unsigned integer type whose largest value is
   * `max`: an optional '+', then at least one digit and nothing else.
   */
  function ParseUnsigned(s: string, max: nat): (r: Option<nat>)
    ensures r.Some? ==> r.value <= max && |s| > 0
  {
    var digits := if |s| > 0 && s[0] == '+' then s[1..] else s;
    if |digits| > 0 && AllDigits(digits) && DigitsValue(digits) <= max then Some(DigitsValue(digits))
    else None
  }

  /** s[k..] is a non-empty digit string at most max, and s[..k] is "" or "+". */
  predicate ValidUnsignedAt(s: string, k: nat, max: nat)
    requires k <= |s|
  {
    (k == 0 || (k == 1 && s[0] == '+')) && |s| > k && AllDigits(s[k..]) && DigitsValue(s[k..]) <= max
  }

  /** ParseUnsigned accepts exactly the strings valid from index 0 or, after a '+', from index 1, with the value of their digits. */
  lemma ParseUnsignedSpec(s: string, max: nat)
    ensures ParseUnsigned(s, max).Some? <==> ValidUnsignedAt(s, 0, max) || (|s| > 0 && ValidUnsignedAt(s, 1, max))
    ensures ValidUnsignedAt(s, 0, max) ==> ParseUnsigned(s, max) == Some(DigitsValue(s))
    ensures |s| > 0 && ValidUnsignedAt(s, 1, max) ==> ParseUnsigned(s, max) == Some(DigitsValue(s[1..]))
  {
    if |s| > 0 && s[0] == '+' {
      assert !IsDigit(s[0]);
      assert !ValidUnsignedAt(s, 0, max);
    } else if |s| > 0 {
      assert !ValidUnsignedAt(s, 1, max);
    }
  }

  /** The decimal digits of a value that fits read back as that value. */
  lemma ParseDecimal(n: nat, max: nat)
    requires n <= max
    ensures ParseUnsigned(Decimal(n), max) == Some(n)
  {
    ParseUnsignedSpec(Decimal(n), max);
  }

  /** The decimal digits of a value that does not fit fail to parse. */
  lemma DecimalTooLarge(n: nat, max: nat)
    requires n > max
    ensures ParseUnsigned(Decimal(n), max).None?
  {
    var s := Decimal(n);
    assert IsDigit(s[0]);
    ParseUnsignedSpec(s, max);
  }

  function ParseSigned(s: string, min: int, max: int): (r: Option<int> )
    ensures r.Some? ==> min <= r.value <= max
    ensures (|s| > 0 && AllDigits(s) && min <= DigitsValue(s) <= max) ==> r == Some(DigitsValue(s) as int)
  {
    var neg := |s| > 0 && s[0] == '-';
    var digits := if |s| > 0 && (s[0] == '+' || s[0] == '-') then s[1..] else s;
    if |digits| == 0 || !AllDigits(digits) then None
    else
      var v := if neg then -(DigitsValue(digits) as int) else DigitsValue(digits) as int;
      if min <= v <= max then Some(v) else None
  }

  /** The text of an integer: a '-' before the digits of a negative one. */
  function SignedDecimal(v: int): (s: string)
    ensures |s| > 0 && ' ' !in s && '\n' !in s
  {
    var d := if v < 0 then "-" + Decimal(-v) else Decimal(v);
    assert forall i :: 0 <= i < |d| ==> d[i] == '-' || IsDigit(d[i]);
    d
  }

  /** Rust's `parse` reads the text of an integer in range back as that integer. */
  lemma ParseSignedDecimal(v: int, min: int, max: int)
    requires min <= v <= max
    ensures ParseSigned(SignedDecimal(v), min, max) == Some(v)
  {
    if v < 0 {
      var m := "-" + Decimal(-v);
      assert m[0] == '-' && m[1..] == Decimal(-v);
    } else {
      assert IsDigit(Decimal(v)[0]);
    }
  }

  /** Joining with single spaces spreads the words over single-space gaps. */
  lemma {:induction false} JoinSpread(words: seq<string>, gaps: seq<string>)
    requires |gaps| == |words| + 1 && gaps[0] == "" && gaps[|words|] == ""
    requires forall k :: 0 < k < |words| ==> gaps[k] == " "
    ensures Join(words, " ") == Spread(words, gaps)
    decreases |words|
  {
    if |words| == 1 {
      assert Spread(words[1..], gaps[1..]) == gaps[1];
    } else if |words| > 1 {
      var g := [""] + gaps[2..];
      JoinSpread(words[1..], g);
      assert Spread(words[1..], gaps[1..]) == " " + words[1] + Spread(words[2..], gaps[2..]);
      assert Spread(words[1..], g) == words[1] + Spread(words[2..], g[1..]) && g[1..] == gaps[2..];
    }
  }

  /** The gaps of words joined with single spaces: none at the ends, one space between two words. */
  function SingleGaps(n: nat): (g: seq<string>)
    ensures |g| == n + 1 && g[0] == "" && g[n] == ""
    ensures forall k :: 0 < k < n ==> g[k] == " "
    ensures forall k :: 0 <= k <= n ==> Blank(g[k])
  {
    seq(n + 1, k requires 0 <= k <= n => if k == 0 || k == n then "" else " ")
  }

  /** Words joined with single spaces split at whitespace into the words again. */
  lemma SplitWhitespaceJoin(words: seq<string>)
    requires forall k :: 0 <= k < |words| ==> IsWord(words[k])
    ensures SplitWhitespace(Join(words, " ")) == words
  {
    var gaps := SingleGaps(|words|);
    SplitWhitespaceSpread(words, gaps);
    JoinSpread(words, gaps);
  }

  /** The text of an integer is a word. */
  lemma SignedWord(v: int)
    ensures IsWord(SignedDecimal(v))
  {
    var s := SignedDecimal(v);
    assert forall i :: 0 <= i < |s| ==> s[i] == '-' || IsDigit(s[i]);
  }

  /** A join of non-empty pieces starts with the first char of the first and ends with the last char of the last. */
  lemma {:induction false} JoinEnds(parts: seq<string>, sep: string)
    requires |parts| >= 1 && forall k :: 0 <= k < |parts| ==> parts[k] != ""
    ensures var j := Join(parts, sep); |j| > 0 && j[0] == parts[0][0] && j[|j| - 1] == parts[|parts| - 1][|parts[|parts| - 1]| - 1]
  {
    if |parts| > 1 {
      JoinEnds(parts[1..], sep);
      assert parts[1..][|parts| - 2] == parts[|parts| - 1];
    }
  }

  /** Python's `int` reads the text of an integer back as that integer. */
  lemma PyIntSignedDecimal(v: int)
    ensures PyInt(SignedDecimal(v)) == Some(v)
  {
    if v < 0 {
      PyIntNegative(Decimal(-v));
    } else {
      PyIntDigits(Decimal(v));
    }
  }

  /**
   * Python's `int(s)` on a string: surrounding whitespace is ignored, an
   * optional sign, then at least one digit.  Anything else raises
   * ValueError, modelled as None.  (Underscores between digits, which
   * Python also accepts, are not modelled.)
   */
  function PyInt(s: string): Option<int>
  {
    SignedValue(Trim(s))
  }

  /** An optional sign, then at least one digit and nothing else; None otherwise. */
  function SignedValue(t: string): Option<int>
  {
    var neg := |t| > 0 && t[0] == '-';
    var digits := if |t| > 0 && (t[0] == '+' || t[0] == '-') then t[1..] else t;
    if |digits| == 0 || !AllDigits(digits) then None
    else Some(if neg then -(DigitsValue(digits) as int) else DigitsValue(digits) as int)
  }

  /** A string that starts and ends with a non-whitespace char is its own trim. */
  lemma TrimFixed(s: string)
    requires |s| > 0 && !IsWhitespace(s[0]) && !IsWhitespace(s[|s| - 1])
    ensures Trim(s) == s
  {
    assert TrimStart(s) == s;
  }

  /** `int` reads a minus sign and a run of digits as the negated value of the digits. */
  lemma PyIntNegative(d: string)
    requires |d| > 0 && AllDigits(d)
    ensures PyInt("-" + d) == Some(-(DigitsValue(d) as int))
  {
    var m := "-" + d;
    assert m[|m| - 1] == d[|d| - 1];
    TrimFixed(m);
    SignedNegative(d);
  }

  lemma SignedNegative(d: string)
    requires |d| > 0 && AllDigits(d)
    ensures SignedValue("-" + d) == Some(-(DigitsValue(d) as int))
  {
    var m := "-" + d;
    assert m[0] == '-' && m[1..] == d;
  }

  /** `int` reads a run of digits as the value of the digits. */
  lemma PyIntDigits(d: string)
    requires |d| > 0 && AllDigits(d)
    ensures PyInt(d) == Some(DigitsValue(d) as int)
  {
    TrimFixed(d);
    assert SignedValue(d) == Some(DigitsValue(d) as int);
  }

  /** `int` on a single char accepts exactly the decimal digits. */
  lemma PyIntChar(c: char)
    ensures PyInt([c]).Some? <==> IsDigit(c)
    ensures IsDigit(c) ==> PyInt([c]) == Some(DigitValue(c) as int)
  {
    if IsWhitespace(c) {
      TrimBlank(c);
    } else {
      TrimFixed([c]);
      SignedChar(c);
    }
  }

  lemma TrimBlank(c: char)
    requires IsWhitespace(c)
    ensures Trim([c]) == []
  {
    var s := [c];
    assert TrimStart(s) == TrimStart(s[1..]) && s[1..] == [];
  }

  /** One char reads as a signed value exactly when it is a digit. */
  lemma SignedChar(c: char)
    ensures SignedValue([c]).Some? <==> IsDigit(c)
    ensures IsDigit(c) ==> SignedValue([c]) == Some(DigitValue(c) as int)
  {
    var s := [c];
    if c == '+' || c == '-' {
      assert s[1..] == [];
    } else if IsDigit(c) {
      assert s[..0] == [];
      assert DigitsValue(s) == DigitValue(c);
    } else {
      assert !IsDigit(s[0]);
    }
  }

  function TrimStart(s: string): (r: string)
    ensures |r| <= |s| && r == s[|s| - |r|..]
    ensures |r| > 0 ==> !IsWhitespace(r[0])
    ensures forall i :: 0 <= i < |s| - |r| ==> IsWhitespace(s[i])
  {
    if |s| > 0 && IsWhitespace(s[0]) then
      var r := TrimStart(s[1..]);
      assert forall i :: 1 <= i < |s| - |r| ==> s[i] == s[1..][i - 1];
      r
    else s
  }

  function TrimEnd(s: string): (r: string)
    ensures |r| <= |s| && r == s[..|r|]
    ensures |r| > 0 ==> !IsWhitespace(r[|r| - 1])
    ensures forall i :: |r| <= i < |s| ==> IsWhitespace(s[i])
  {
    if |s| > 0 && IsWhitespace(s[|s| - 1]) then TrimEnd(s[..|s| - 1]) else s
  }

  /** Rust's `trim` and Python's `strip()`. */
  function Trim(s: string): (r: string)
    ensures |r| <= |s|
    ensures |r| > 0 ==> !IsWhitespace(r[0]) && !IsWhitespace(r[|r| - 1])
    ensures (forall i :: 0 <= i < |s| ==> !IsWhitespace(s[i])) ==> r == s
  {
    TrimEnd(TrimStart(s))
  }

  /** Where Trim's result starts in s: the length of the leading whitespace. */
  function TrimOffset(s: string): nat
  {
    |s| - |TrimStart(s)|
  }

  /**
   * Trim keeps the slice of s between its leading and its trailing
   * whitespace: everything it drops is whitespace.
   */
  lemma TrimSpec(s: string)
    ensures TrimOffset(s) + |Trim(s)| <= |s|
    ensures Trim(s) == s[TrimOffset(s)..TrimOffset(s) + |Trim(s)|]
    ensures forall i :: 0 <= i < TrimOffset(s) ==> IsWhitespace(s[i])
    ensures forall i :: TrimOffset(s) + |Trim(s)| <= i < |s| ==> IsWhitespace(s[i])
  {
    var t := TrimStart(s);
    var a := |s| - |t|;
    var r := TrimEnd(t);
    assert t == s[a..];
    assert r == t[..|r|];
    assert t[..|r|] == s[a..a + |r|];
    forall i | a + |r| <= i < |s| ensures IsWhitespace(s[i]) {
      assert s[i] == t[i - a];
    }
  }

  /** Trim drops whitespace around a text that starts and ends with non-whitespace. */
  lemma TrimAround(a: string, d: string, b: string)
    requires forall i :: 0 <= i < |a| ==> IsWhitespace(a[i])
    requires forall i :: 0 <= i < |b| ==> IsWhitespace(b[i])
    requires |d| > 0 && !IsWhitespace(d[0]) && !IsWhitespace(d[|d| - 1])
    ensures Trim(a + d + b) == d
  {
    TrimStartSkips(a, d + b);
    assert a + d + b == a + (d + b);
    TrimEndSkips(d, b);
  }

  /** Trim drops the newline after a text that starts and ends with non-whitespace. */
  lemma TrimNewline(d: string)
    requires |d| > 0 && !IsWhitespace(d[0]) && !IsWhitespace(d[|d| - 1])
    ensures Trim(d + "\n") == d
  {
    var nl := "\n";
    assert forall i :: 0 <= i < |nl| ==> IsWhitespace(nl[i]);
    TrimAround("", d, nl);
    assert "" + d + nl == d + nl;
  }

  lemma {:induction false} TrimStartSkips(a: string, t: string)
    requires forall i :: 0 <= i < |a| ==> IsWhitespace(a[i])
    requires |t| > 0 && !IsWhitespace(t[0])
    ensures TrimStart(a + t) == t
    decreases |a|
  {
    if a != [] {
      assert (a + t)[1..] == a[1..] + t;
      TrimStartSkips(a[1..], t);
    }
  }

  lemma {:induction false} TrimEndSkips(t: string, b: string)
    requires forall i :: 0 <= i < |b| ==> IsWhitespace(b[i])
    requires |t| > 0 && !IsWhitespace(t[|t| - 1])
    ensures TrimEnd(t + b) == t
    decreases |b|
  {
    if b != [] {
      var u := b[..|b| - 1];
      assert (t + b)[..|t + b| - 1] == t + u;
      TrimEndSkips(t, u);
    }
  }

  /** Trimming again changes nothing. */
  lemma TrimIdempotent(s: string)
    ensures Trim(Trim(s)) == Trim(s)
  {
    var r := Trim(s);
    if |r| > 0 {
      assert TrimStart(r) == r;
      assert TrimEnd(r) == r;
    }
  }

  /** Rust's `trim_matches(c)`: every leading and trailing c removed. */
  function TrimMatches(s: string, c: char): (r: string)
    ensures |r| <= |s|
    ensures |r| > 0 ==> r[0] != c && r[|r| - 1] != c
    ensures c !in s ==> r == s
  {
    if |s| > 0 && s[0] == c then TrimMatches(s[1..], c)
    else if |s| > 0 && s[|s| - 1] == c then TrimMatches(s[..|s| - 1], c)
    else s
  }

  predicate StartsWith(s: string, p: string) { |p| <= |s| && s[..|p|] == p }

  predicate EndsWith(s: string, p: string) { |p| <= |s| && s[|s| - |p|..] == p }

  /** `sub in s` in Python, `s.contains(sub)` in Rust. */
  predicate Contains(s: string, sub: string)
    decreases |s|
  {
    StartsWith(s, sub) || (|s| > 0 && Contains(s[1..], sub))
  }

  /** A word that sits at position i of a string is contained in it. */
  lemma {:induction false} ContainsAt(s: string, w: string, i: nat)
    requires i + |w| <= |s| && s[i..i + |w|] == w
    ensures Contains(s, w)
    decreases i
  {
    if i > 0 {
      assert s[1..][i - 1..i - 1 + |w|] == w;
      ContainsAt(s[1..], w, i - 1);
    }
  }

  /** A string without some char of w does not contain w. */
  lemma {:induction false} LacksChar(s: string, w: string, c: char)
    requires c in w && c !in s
    ensures !Contains(s, w)
    decreases |s|
  {
    if |s| > 0 {
      LacksChar(s[1..], w, c);
    }
  }

  /**
   * Python's `s.split(sep)` and Rust's `s.split(sep)` for a non-empty
   * separator: the pieces between the non-overlapping occurrences found
   * from the left; there is always at least one piece.
   */
  function SplitOn(s: string, sep: string): (r: seq<string>)
    requires |sep| > 0
    ensures |r| >= 1
    ensures !Contains(s, sep) ==> r == [s]
    decreases |s|
  {
    if |s| < |sep| then [s]
    else if s[..|sep|] == sep then
      [""] + SplitOn(s[|sep|..], sep)
    else
      var rest := SplitOn(s[1..], sep);
      assert [s[0]] + s[1..] == s;
      [[s[0]] + rest[0]] + rest[1..]
  }

  lemma {:induction false} CharContains(s: string, c: char)
    ensures Contains(s, [c]) <==> c in s
    decreases |s|
  {
    if |s| > 0 {
      CharContains(s[1..], c);
      assert c in s <==> s[0] == c || c in s[1..];
    }
  }

  /** The pieces joined back with sep between them, the inverse of splitting. */
  function Join(parts: seq<string>, sep: string): string
  {
    if |parts| == 0 then "" else if |parts| == 1 then parts[0] else parts[0] + sep + Join(parts[1..], sep)
  }

  /** Joining after a first piece puts the separator between it and the rest. */
  lemma JoinCons(h: string, rest: seq<string>, sep: string)
    requires |rest| >= 1
    ensures Join([h] + rest, sep) == h + sep + Join(rest, sep)
  {
    assert ([h] + rest)[1..] == rest;
  }

  /** A char put in front of the first piece is put in front of the joined string. */
  lemma {:induction false} JoinGrowFirst(c: char, rest: seq<string>, sep: string)
    requires |rest| >= 1
    ensures Join([[c] + rest[0]] + rest[1..], sep) == [c] + Join(rest, sep)
  {
    if |rest| > 1 {
      JoinCons([c] + rest[0], rest[1..], sep);
      JoinCons(rest[0], rest[1..], sep);
      assert [rest[0]] + rest[1..] == rest;
    }
  }

  /** Splitting loses nothing: joining the pieces with the separator gives back the string. */
  lemma {:induction false} SplitOnJoin(s: string, sep: string)
    requires |sep| > 0
    ensures Join(SplitOn(s, sep), sep) == s
    decreases |s|
  {
    if |s| < |sep| {
    } else if s[..|sep|] == sep {
      var rest := SplitOn(s[|sep|..], sep);
      assert SplitOn(s, sep) == [""] + rest;
      SplitOnJoin(s[|sep|..], sep);
      JoinCons("", rest, sep);
      assert s == sep + s[|sep|..];
    } else {
      var rest := SplitOn(s[1..], sep);
      assert SplitOn(s, sep) == [[s[0]] + rest[0]] + rest[1..];
      SplitOnJoin(s[1..], sep);
      JoinGrowFirst(s[0], rest, sep);
      assert [s[0]] + s[1..] == s;
    }
  }

  /** A char in neither the separator nor any piece is not in the joined string. */
  lemma {:induction false} NotInJoin(parts: seq<string>, sep: string, c: char)
    requires c !in sep && forall k :: 0 <= k < |parts| ==> c !in parts[k]
    ensures c !in Join(parts, sep)
  {
    if |parts| > 1 {
      NotInJoin(parts[1..], sep, c);
    }
  }

  /** A piece without the separator char, the separator, then more: the piece is split off first. */
  lemma {:induction false} SplitOnFront(p: string, t: string, c: char)
    requires c !in p
    ensures SplitOn(p + [c] + t, [c]) == [p] + SplitOn(t, [c])
    decreases |p|
  {
    var s := p + [c] + t;
    if p == [] {
      assert s[..1] == [c] && s[1..] == t;
    } else {
      assert s[..1] == [p[0]] && s[1..] == p[1..] + [c] + t;
      SplitOnFront(p[1..], t, c);
      assert [p[0]] + p[1..] == p;
    }
  }

  /** Splitting a join on a char no piece holds gives back the pieces: the converse of SplitOnJoin. */
  lemma {:induction false} JoinSplit(parts: seq<string>, c: char)
    requires |parts| >= 1 && forall k :: 0 <= k < |parts| ==> c !in parts[k]
    ensures Split(Join(parts, [c]), c) == parts
  {
    if |parts| == 1 {
      assert Join(parts, [c]) == parts[0];
    } else {
      JoinSplit(parts[1..], c);
      SplitOnFront(parts[0], Join(parts[1..], [c]), c);
      assert Join(parts, [c]) == parts[0] + [c] + Join(parts[1..], [c]);
      assert [parts[0]] + parts[1..] == parts;
    }
  }

  /** A piece without the separator's first char, the separator, then more: the first piece is that piece. */
  lemma {:induction false} SplitOnHead(p: string, sep: string, t: string)
    requires |sep| > 0 && sep[0] !in p
    ensures SplitOn(p + sep + t, sep)[0] == p
    decreases |p|
  {
    var s := p + sep + t;
    if p == [] {
      assert s[..|sep|] == sep;
    } else {
      assert s[0] == p[0] && s[..|sep|][0] == p[0];
      assert s[1..] == p[1..] + sep + t;
      SplitOnHead(p[1..], sep, t);
      assert [p[0]] + p[1..] == p;
    }
  }

  /** A piece without the separator's first char, the separator, then more: the piece is split off first. */
  lemma {:induction false} SplitOnFrontWord(p: string, sep: string, t: string)
    requires |sep| > 0 && sep[0] !in p
    ensures SplitOn(p + sep + t, sep) == [p] + SplitOn(t, sep)
    decreases |p|
  {
    var s := p + sep + t;
    if p == [] {
      assert s[..|sep|] == sep && s[|sep|..] == t;
    } else {
      assert s[..|sep|][0] == p[0];
      assert s[1..] == p[1..] + sep + t;
      SplitOnFrontWord(p[1..], sep, t);
      assert [p[0]] + p[1..] == p;
    }
  }

  /** The pieces with `e` added to the last one. */
  function Suffixed(parts: seq<string>, e: string): (r: seq<string>)
    ensures |r| == |parts|
    ensures forall k :: 0 <= k < |parts| - 1 ==> r[k] == parts[k]
    ensures |parts| >= 1 ==> r[|parts| - 1] == parts[|parts| - 1] + e
  {
    if |parts| == 0 then []
    else if |parts| == 1 then [parts[0] + e]
    else [parts[0]] + Suffixed(parts[1..], e)
  }

  /** A char in no piece and not in the suffix is in no suffixed piece. */
  lemma SuffixedLacks(parts: seq<string>, e: string, c: char)
    requires c !in e && forall k :: 0 <= k < |parts| ==> c !in parts[k]
    ensures forall k :: 0 <= k < |parts| ==> c !in Suffixed(parts, e)[k]
  {
    forall k | 0 <= k < |parts| ensures c !in Suffixed(parts, e)[k] {
      if k == |parts| - 1 {
        assert Suffixed(parts, e)[k] == parts[k] + e;
      }
    }
  }

  /** Text after a join is text after its last piece. */
  lemma {:induction false} JoinAppend(parts: seq<string>, sep: string, e: string)
    requires |parts| >= 1
    ensures Join(parts, sep) + e == Join(Suffixed(parts, e), sep)
  {
    if |parts| > 1 {
      JoinAppend(parts[1..], sep, e);
      JoinCons(parts[0], Suffixed(parts[1..], e), sep);
    }
  }

  /** No piece of a split on a char holds that char. */
  lemma {:induction false} SplitPieces(s: string, c: char)
    ensures forall k, i :: 0 <= k < |SplitOn(s, [c])| && 0 <= i < |SplitOn(s, [c])[k]| ==> SplitOn(s, [c])[k][i] != c
    decreases |s|
  {
    if |s| >= 1 {
      SplitPieces(s[1..], c);
      var rest := SplitOn(s[1..], [c]);
      if s[..1] != [c] {
        assert s[0] != c by { assert s[..1] == [s[0]]; }
        var r := [[s[0]] + rest[0]] + rest[1..];
        assert forall k :: 1 <= k < |r| ==> r[k] == rest[k];
      }
    }
  }

  /** Splitting on a single char. */
  function Split(s: string, sep: char): (r: seq<string>)
    ensures |r| >= 1
    ensures sep !in s ==> r == [s]
  {
    CharContains(s, sep);
    SplitOn(s, [sep])
  }

  /** The pieces of a split on a char hold no such char, and joined with it give back the string. */
  lemma SplitSpec(s: string, sep: char)
    ensures Join(Split(s, sep), [sep]) == s
    ensures forall k, i :: 0 <= k < |Split(s, sep)| && 0 <= i < |Split(s, sep)[k]| ==> Split(s, sep)[k][i] != sep
  {
    SplitOnJoin(s, [sep]);
    SplitPieces(s, sep);
  }

  /** A string that ends with the separator splits into at least two pieces, the last of them empty. */
  lemma {:induction false} SplitTrailing(s: string, c: char)
    ensures |Split(s + [c], c)| >= 2 && Split(s + [c], c)[|Split(s + [c], c)| - 1] == ""
    decreases |s|
  {
    var u := s + [c];
    if s == [] {
      assert u[..1] == [c] && u[1..] == "";
    } else {
      assert u[1..] == s[1..] + [c];
      SplitTrailing(s[1..], c);
      if s[0] == c {
        assert u[..1] == [c];
      } else {
        assert u[..1] == [s[0]];
      }
    }
  }

  /**
   * Rust's `str::lines`: the pieces between '\n', without the empty piece
   * after a final '\n'.  A '\r' before a '\n' stays on its line here.
   */
  function Lines(s: string): seq<string> {
    var ps := Split(s, '\n');
    if ps[|ps| - 1] == "" then ps[..|ps| - 1] else ps
  }

  /** An empty last piece adds one separator at the end. */
  lemma {:induction false} JoinEmptyLast(parts: seq<string>, sep: string)
    requires |parts| >= 1
    ensures Join(parts + [""], sep) == Join(parts, sep) + sep
  {
    assert (parts + [""])[1..] == parts[1..] + [""];
    if |parts| > 1 {
      JoinEmptyLast(parts[1..], sep);
    }
  }

  /**
   * Lines without a newline, the last of them not empty, joined with
   * newlines give back those lines.
   */
  lemma LinesJoin(ls: seq<string>)
    requires |ls| >= 1 && ls[|ls| - 1] != "" && forall k :: 0 <= k < |ls| ==> '\n' !in ls[k]
    ensures Lines(Join(ls, "\n")) == ls
  {
    JoinSplit(ls, '\n');
    LinesOfSplit(Join(ls, "\n"), ls);
  }

  lemma LinesOfTrailing(s: string, ms: seq<string>)
    requires Split(s, '\n') == ms && ms[|ms| - 1] == ""
    ensures Lines(s) == ms[..|ms| - 1]
  {
  }

  lemma LinesOfSplit(s: string, ls: seq<string>)
    requires Split(s, '\n') == ls && ls[|ls| - 1] != ""
    ensures Lines(s) == ls
  {
  }

  /** The same lines with a final newline. */
  lemma LinesJoinEnd(ls: seq<string>)
    requires |ls| >= 1 && forall k :: 0 <= k < |ls| ==> '\n' !in ls[k]
    ensures Lines(Join(ls, "\n") + "\n") == ls
  {
    var ms := ls + [""];
    assert forall k :: 0 <= k < |ms| ==> '\n' !in ms[k];
    JoinSplit(ms, '\n');
    JoinEmptyLast(ls, "\n");
    LinesOfTrailing(Join(ls, "\n") + "\n", ms);
    assert ms[..|ms| - 1] == ls;
  }

  /** Rust's `split_whitespace` and Python's `split()`: the maximal runs of non-whitespace. */
  function SplitWhitespace(s: string): (r: seq<string>)
    ensures forall k :: 0 <= k < |r| ==> |r[k]| > 0
    ensures forall k, i :: 0 <= k < |r| && 0 <= i < |r[k]| ==> !IsWhitespace(r[k][i])
    ensures |s| > 0 && !IsWhitespace(s[0]) ==> |r| > 0 && r[0][0] == s[0]
    ensures (forall i :: 0 <= i < |s| ==> IsWhitespace(s[i])) <==> r == []
    decreases |s|
  {
    if s == [] then []
    else if IsWhitespace(s[0]) then SplitWhitespace(s[1..])
    else
      var rest := SplitWhitespace(s[1..]);
      if |s| > 1 && !IsWhitespace(s[1]) then [[s[0]] + rest[0]] + rest[1..]
      else [[s[0]]] + rest
  }

  predicate Blank(s: string) { forall i :: 0 <= i < |s| ==> IsWhitespace(s[i]) }

  /** A word: non-empty and free of whitespace. */
  predicate IsWord(w: string) { |w| > 0 && forall i :: 0 <= i < |w| ==> !IsWhitespace(w[i]) }

  /**
   * The words with the whitespace runs around and between them: gaps[0]
   * before the first word, gaps[k] between words k - 1 and k, and the last
   * gap after the last word.  Every string has this form.
   */
  function Spread(words: seq<string>, gaps: seq<string>): string
    requires |gaps| == |words| + 1
    decreases |words|
  {
    if words == [] then gaps[0] else gaps[0] + words[0] + Spread(words[1..], gaps[1..])
  }

  /** The last gap comes after everything else. */
  lemma {:induction false} SpreadLast(words: seq<string>, front: seq<string>, g: string)
    requires |front| == |words|
    ensures Spread(words, front + [g]) == Spread(words, front + [""]) + g
    decreases |words|
  {
    if words == [] {
      assert Spread(words, front + [g]) == (front + [g])[0] == g;
      assert Spread(words, front + [""]) == (front + [""])[0] == "";
    } else {
      var a, b := front + [g], front + [""];
      assert a[0] == front[0] && a[1..] == front[1..] + [g];
      assert b[0] == front[0] && b[1..] == front[1..] + [""];
      SpreadLast(words[1..], front[1..], g);
      var x := Spread(words[1..], b[1..]);
      assert front[0] + words[0] + (x + g) == front[0] + words[0] + x + g;
    }
  }

  /** With nothing after the last word, the spread words end with it. */
  lemma {:induction false} SpreadEnd(words: seq<string>, gaps: seq<string>)
    requires |gaps| == |words| + 1 && |words| > 0 && gaps[|words|] == "" && |words[|words| - 1]| > 0
    ensures |Spread(words, gaps)| > 0
    ensures Spread(words, gaps)[|Spread(words, gaps)| - 1] == words[|words| - 1][|words[|words| - 1]| - 1]
    decreases |words|
  {
    var x := Spread(words[1..], gaps[1..]);
    if |words| == 1 {
      assert x == gaps[1] == "";
    } else {
      SpreadEnd(words[1..], gaps[1..]);
    }
    assert Spread(words, gaps) == gaps[0] + words[0] + x;
  }

  /** A char in no word and no gap is not in the spread words. */
  lemma {:induction false} SpreadLacks(words: seq<string>, gaps: seq<string>, c: char)
    requires |gaps| == |words| + 1
    requires forall k :: 0 <= k < |words| ==> c !in words[k]
    requires forall k :: 0 <= k < |gaps| ==> c !in gaps[k]
    ensures c !in Spread(words, gaps)
    decreases |words|
  {
    if words != [] {
      SpreadLacks(words[1..], gaps[1..], c);
    }
  }

  /** Whitespace in front changes nothing. */
  lemma {:induction false} SplitWhitespaceBlank(a: string, t: string)
    requires Blank(a)
    ensures SplitWhitespace(a + t) == SplitWhitespace(t)
    decreases |a|
  {
    if a != [] {
      assert (a + t)[0] == a[0] && IsWhitespace(a[0]) && (a + t)[1..] == a[1..] + t;
      SplitWhitespaceBlank(a[1..], t);
    } else {
      assert a + t == t;
    }
  }

  /** A word followed by whitespace or nothing is split off first. */
  lemma SplitWhitespaceCharSep(c: char, u: string)
    requires !IsWhitespace(c) && (u == [] || IsWhitespace(u[0]))
    ensures SplitWhitespace([c] + u) == [[c]] + SplitWhitespace(u)
  {
    assert ([c] + u)[1..] == u;
  }

  lemma SplitWhitespaceCharJoin(c: char, u: string)
    requires !IsWhitespace(c) && u != [] && !IsWhitespace(u[0])
    ensures SplitWhitespace([c] + u) == [[c] + SplitWhitespace(u)[0]] + SplitWhitespace(u)[1..]
  {
    assert ([c] + u)[1..] == u;
  }

  lemma {:induction false} SplitWhitespaceWord(w: string, t: string)
    requires IsWord(w) && (t == [] || IsWhitespace(t[0]))
    ensures SplitWhitespace(w + t) == [w] + SplitWhitespace(t)
    decreases |w|
  {
    var u := w[1..] + t;
    assert w + t == [w[0]] + u;
    if |w| == 1 {
      assert u == t && [w[0]] == w;
      SplitWhitespaceCharSep(w[0], u);
    } else {
      assert IsWord(w[1..]);
      SplitWhitespaceWord(w[1..], t);
      assert u[0] == w[1];
      SplitWhitespaceCharJoin(w[0], u);
      assert [w[0]] + w[1..] == w;
    }
  }

  /**
   * Splitting on whitespace gives back the words of any spread of them:
   * the pieces are the maximal runs of non-whitespace, in order.
   */
  lemma {:induction false} SplitWhitespaceSpread(words: seq<string>, gaps: seq<string>)
    requires |gaps| == |words| + 1
    requires forall k :: 0 <= k < |words| ==> IsWord(words[k])
    requires forall k :: 0 <= k < |gaps| ==> Blank(gaps[k])
    requires forall k :: 0 < k < |words| ==> |gaps[k]| > 0
    ensures SplitWhitespace(Spread(words, gaps)) == words
    decreases |words|
  {
    if words == [] {
      assert SplitWhitespace(gaps[0]) == [];
    } else {
      var rest := Spread(words[1..], gaps[1..]);
      if |words| > 1 {
        assert rest == gaps[1] + words[1] + Spread(words[2..], gaps[2..]);
        assert IsWhitespace(rest[0]);
      } else {
        assert rest == gaps[1];
      }
      SplitWhitespaceSpread(words[1..], gaps[1..]);
      SplitWhitespaceWord(words[0], rest);
      assert gaps[0] + words[0] + rest == gaps[0] + (words[0] + rest);
      SplitWhitespaceBlank(gaps[0], words[0] + rest);
      assert [words[0]] + words[1..] == words;
    }
  }

  /** The whitespace runs of s around and between its words, as SplitWhitespace sees them. */
  function Gaps(s: string): (r: seq<string>)
    ensures |r| >= 1
    decreases |s|
  {
    if s == [] then [""]
    else
      var g := Gaps(s[1..]);
      if IsWhitespace(s[0]) then [[s[0]] + g[0]] + g[1..]
      else if |s| > 1 && !IsWhitespace(s[1]) then g
      else [""] + g
  }

  /** A string that starts with a non-whitespace char has no leading gap. */
  lemma GapsWordFirst(s: string)
    requires |s| > 0 && !IsWhitespace(s[0])
    ensures Gaps(s)[0] == ""
  {
  }

  /**
   * The gaps are one more than the words, all whitespace, and the inner
   * ones are not empty: the words are maximal runs.
   */
  lemma {:induction false} GapsShape(s: string)
    ensures |Gaps(s)| == |SplitWhitespace(s)| + 1
    ensures forall k :: 0 <= k < |Gaps(s)| ==> Blank(Gaps(s)[k])
    ensures forall k :: 0 < k < |Gaps(s)| - 1 ==> |Gaps(s)[k]| > 0
    decreases |s|
  {
    if s != [] {
      GapsShape(s[1..]);
      var g := Gaps(s[1..]);
      if IsWhitespace(s[0]) {
        var r := [[s[0]] + g[0]] + g[1..];
        assert Gaps(s) == r;
        assert forall k :: 0 < k < |r| ==> r[k] == g[k];
      } else if |s| > 1 && !IsWhitespace(s[1]) {
        assert Gaps(s) == g;
      } else {
        var r := [""] + g;
        assert Gaps(s) == r;
        assert forall k :: 0 < k < |r| ==> r[k] == g[k - 1];
        if |s| > 1 {
          assert g[0] == Gaps(s[1..])[0];
          assert |g[0]| > 0 by {
            if g[0] == [] {
              GapsBlankFirst(s[1..]);
            }
          }
        }
      }
    }
  }

  /** A string that starts with whitespace has a non-empty leading gap. */
  lemma GapsBlankFirst(s: string)
    requires |s| > 0 && IsWhitespace(s[0])
    ensures |Gaps(s)[0]| > 0
  {
  }

  lemma ConsAssoc(c: char, a: string, b: string, x: string)
    ensures ([c] + a) + b + x == [c] + (a + b + x)
  { }

  /** A leading whitespace char joins the first gap. */
  lemma SpreadBlankFront(c: char, w: seq<string>, g: seq<string>)
    requires |g| == |w| + 1
    ensures Spread(w, [[c] + g[0]] + g[1..]) == [c] + Spread(w, g)
  {
    var g' := [[c] + g[0]] + g[1..];
    assert g'[0] == [c] + g[0] && g'[1..] == g[1..];
    if w == [] {
      assert Spread(w, g') == g'[0];
      assert Spread(w, g) == g[0];
    } else {
      var x := Spread(w[1..], g[1..]);
      assert Spread(w, g') == g'[0] + w[0] + Spread(w[1..], g'[1..]);
      ConsAssoc(c, g[0], w[0], x);
    }
  }

  lemma EmptyConsAssoc(e: string, c: char, a: string, x: string)
    requires e == []
    ensures e + ([c] + a) + x == [c] + (e + a + x)
  { }

  /** A leading word char joins the first word when there is no leading gap. */
  lemma SpreadWordFront(c: char, w: seq<string>, g: seq<string>)
    requires |g| == |w| + 1 && w != [] && g[0] == ""
    ensures Spread([[c] + w[0]] + w[1..], g) == [c] + Spread(w, g)
  {
    var w' := [[c] + w[0]] + w[1..];
    assert w'[0] == [c] + w[0] && w'[1..] == w[1..];
    var x := Spread(w[1..], g[1..]);
    assert Spread(w', g) == g[0] + w'[0] + x;
    assert Spread(w, g) == g[0] + w[0] + x;
    EmptyConsAssoc(g[0], c, w[0], x);
  }

  /** A word of one char in front, with no gap before it. */
  lemma SpreadCharFront(c: char, w: seq<string>, g: seq<string>)
    requires |g| == |w| + 1
    ensures Spread([[c]] + w, [""] + g) == [c] + Spread(w, g)
  {
    assert ([[c]] + w)[1..] == w && ([""] + g)[1..] == g;
  }

  /** The words of s spread over its gaps give back s: nothing is lost or reordered. */
  lemma {:induction false} SplitWhitespaceGaps(s: string)
    ensures |Gaps(s)| == |SplitWhitespace(s)| + 1
    ensures Spread(SplitWhitespace(s), Gaps(s)) == s
    decreases |s|
  {
    GapsShape(s);
    if s != [] {
      SplitWhitespaceGaps(s[1..]);
      var w, g := SplitWhitespace(s[1..]), Gaps(s[1..]);
      if IsWhitespace(s[0]) {
        SpreadBlankFront(s[0], w, g);
      } else if |s| > 1 && !IsWhitespace(s[1]) {
        GapsWordFirst(s[1..]);
        SpreadWordFront(s[0], w, g);
      } else {
        SpreadCharFront(s[0], w, g);
      }
      assert [s[0]] + s[1..] == s;
    }
  }

  /** Whitespace at the end changes nothing. */
  lemma {:induction false} SplitWhitespaceBlankEnd(t: string, b: string)
    requires Blank(b)
    ensures SplitWhitespace(t + b) == SplitWhitespace(t)
    decreases |t|
  {
    if t == [] {
      assert t + b == b;
    } else {
      var u := t + b;
      assert u[0] == t[0] && u[1..] == t[1..] + b;
      SplitWhitespaceBlankEnd(t[1..], b);
      if |t| > 1 {
        assert u[1] == t[1];
      }
    }
  }

  /** Splitting at whitespace ignores the leading whitespace `trim` drops. */
  lemma {:induction false} SplitWhitespaceTrimStart(s: string)
    ensures SplitWhitespace(TrimStart(s)) == SplitWhitespace(s)
    decreases |s|
  {
    if |s| > 0 && IsWhitespace(s[0]) {
      SplitWhitespaceTrimStart(s[1..]);
    }
  }

  /** Splitting at whitespace ignores the trailing whitespace `trim` drops. */
  lemma {:induction false} SplitWhitespaceTrimEnd(s: string)
    ensures SplitWhitespace(TrimEnd(s)) == SplitWhitespace(s)
    decreases |s|
  {
    if |s| > 0 && IsWhitespace(s[|s| - 1]) {
      var u := s[..|s| - 1];
      SplitWhitespaceTrimEnd(u);
      assert s == u + [s[|s| - 1]];
      SplitWhitespaceBlankEnd(u, [s[|s| - 1]]);
    }
  }

  /** Splitting at whitespace ignores the whitespace `trim` drops. */
  lemma SplitWhitespaceTrim(s: string)
    ensures SplitWhitespace(Trim(s)) == SplitWhitespace(s)
  {
    SplitWhitespaceTrimStart(s);
    SplitWhitespaceTrimEnd(TrimStart(s));
  }

  /** Python's and Rust's `replace(from, to)`: every non-overlapping occurrence, from the left. */
  function Replace(s: string, from: string, to: string): (r: string)
    requires |from| > 0
    ensures !Contains(s, from) ==> r == s
    decreases |s|
  {
    if |s| < |from| then s
    else if s[..|from|] == from then to + Replace(s[|from|..], from, to)
    else
      [s[0]] + Replace(s[1..], from, to)
  }

  /** An occurrence at the front is replaced, and the replacing goes on after it. */
  lemma ReplaceFront(from: string, t: string, to: string)
    requires |from| > 0
    ensures Replace(from + t, from, to) == to + Replace(t, from, to)
  {
    assert (from + t)[..|from|] == from && (from + t)[|from|..] == t;
  }

  /** `from` after a text that lacks its first char: that occurrence alone is replaced. */
  lemma {:induction false} ReplaceBack(t: string, from: string, to: string)
    requires |from| > 0 && from[0] !in t
    ensures Replace(t + from, from, to) == t + to
    decreases |t|
  {
    if t == [] {
      assert t + from == from + "";
      ReplaceFront(from, "", to);
    } else {
      var s := t + from;
      assert s[0] == t[0] && s[..|from|][0] == s[0];
      assert s[..|from|] != from;
      assert s[1..] == t[1..] + from;
      ReplaceBack(t[1..], from, to);
      assert Replace(s, from, to) == [t[0]] + Replace(t[1..] + from, from, to);
      assert [t[0]] + (t[1..] + to) == t + to;
    }
  }

  /** A string shorter than w does not contain it. */
  lemma {:induction false} ShortLacks(s: string, w: string)
    requires |s| < |w|
    ensures !Contains(s, w)
    decreases |s|
  {
    if |s| > 0 {
      ShortLacks(s[1..], w);
    }
  }

  /** Removing a one-char string removes it from both halves of a concatenation. */
  lemma {:induction false} ReplaceCharAppend(x: string, y: string, c: char)
    ensures Replace(x + y, [c], "") == Replace(x, [c], "") + Replace(y, [c], "")
    decreases |x|
  {
    if x == [] {
      assert x + y == y;
    } else {
      var u := x + y;
      assert u[..1] == x[..1] && u[1..] == x[1..] + y;
      ReplaceCharAppend(x[1..], y, c);
      if x[..1] != [c] {
        assert x[..1] == [x[0]];
      }
    }
  }

  /** Removing spaces from a string of spaces leaves nothing. */
  lemma {:induction false} ReplaceAllSpaces(g: string)
    requires forall i :: 0 <= i < |g| ==> g[i] == ' '
    ensures Replace(g, " ", "") == ""
    decreases |g|
  {
    if g != [] {
      assert g[..1] == " ";
      ReplaceAllSpaces(g[1..]);
    }
  }

  /** The only whitespace of the string is spaces. */
  predicate SpacedOnly(s: string) {
    forall i :: 0 <= i < |s| && IsWhitespace(s[i]) ==> s[i] == ' '
  }

  /** Removing the spaces ignores the leading spaces `trim` drops. */
  lemma {:induction false} ReplaceTrimStart(s: string)
    requires SpacedOnly(s)
    ensures Replace(TrimStart(s), " ", "") == Replace(s, " ", "")
    decreases |s|
  {
    if |s| > 0 && IsWhitespace(s[0]) {
      assert s[..1] == " ";
      assert SpacedOnly(s[1..]) by {
        forall i | 0 <= i < |s[1..]| && IsWhitespace(s[1..][i]) ensures s[1..][i] == ' ' {
          assert s[1..][i] == s[i + 1];
        }
      }
      ReplaceTrimStart(s[1..]);
    }
  }

  /** Removing the spaces ignores the trailing spaces `trim` drops. */
  lemma {:induction false} ReplaceTrimEnd(s: string)
    requires SpacedOnly(s)
    ensures Replace(TrimEnd(s), " ", "") == Replace(s, " ", "")
    decreases |s|
  {
    if |s| > 0 && IsWhitespace(s[|s| - 1]) {
      var u := s[..|s| - 1];
      assert SpacedOnly(u) by {
        forall i | 0 <= i < |u| && IsWhitespace(u[i]) ensures u[i] == ' ' {
          assert u[i] == s[i];
        }
      }
      ReplaceTrimEnd(u);
      assert s == u + " ";
      ReplaceCharAppend(u, " ", ' ');
      assert Replace(" ", " ", "") == "" by {
        assert " "[..1] == " " && " "[1..] == "";
      }
    }
  }

  /**
   * When the only whitespace of a string is spaces, removing the spaces
   * after `trim` is removing them from the whole string.
   */
  lemma ReplaceTrimSpaces(s: string)
    requires SpacedOnly(s)
    ensures Replace(Trim(s), " ", "") == Replace(s, " ", "")
  {
    ReplaceTrimStart(s);
    var t := TrimStart(s);
    assert SpacedOnly(t) by {
      forall i | 0 <= i < |t| && IsWhitespace(t[i]) ensures t[i] == ' ' {
        assert t[i] == s[|s| - |t| + i];
      }
    }
    ReplaceTrimEnd(t);
  }

  function Reverse<T>(s: seq<T>): (r: seq<T>)
    ensures |r| == |s|
    ensures forall i :: 0 <= i < |s| ==> r[i] == s[|s| - 1 - i]
  {
    seq(|s|, i requires 0 <= i < |s| => s[|s| - 1 - i])
  }

  /** Python's `s[i]`: a negative i counts from the end; out of range raises IndexError (None). */
  function PyIndex<T>(s: seq<T>, i: int): (r: Option<T>)
    ensures r.Some? <==> -|s| <= i < |s|
    ensures 0 <= i < |s| ==> r == Some(s[i])
    ensures -|s| <= i < 0 ==> r == Some(s[|s| + i])
  {
    if 0 <= i < |s| then Some(s[i])
    else if -|s| <= i < 0 then Some(s[|s| + i])
    else None
  }

  /** A Python slice bound: negative counts from the end, then clamped into 0..|s|. */
  function PyBound(len: nat, i: int): (b: nat)
    ensures b <= len
    ensures 0 <= i <= len ==> b == i
  {
    if i < 0 then (if i + len < 0 then 0 else i + len) else if i > len then len else i
  }

  /** Python's `s[a:b]`: never raises; an empty result when the bounds cross. */
  function PySlice<T>(s: seq<T>, a: int, b: int): (r: seq<T>)
    ensures 0 <= a <= b <= |s| ==> r == s[a..b]
    ensures |r| <= |s|
  {
    var lo, hi := PyBound(|s|, a), PyBound(|s|, b);
    if lo < hi then s[lo..hi] else []
  }
}
