/** The few JavaScript string primitives the application relies on, stated
    with their ECMAScript meaning: `trim`, the `\s` and `\d` regex classes,
    ASCII case mapping, `slice` with negative indices, `parseInt` on a run of
    decimal digits, decimal formatting of integers, and `<` on strings.
    A `char` stands for one UTF-16 code unit. */
module JsString {

  /** The `\s` class of ECMAScript regular expressions and the characters
      `String.prototype.trim` removes: WhiteSpace and LineTerminator. */
  predicate IsWhitespace(c: char) {
    ('\t' <= c <= '\r') || c == ' ' || c == '\U{00A0}' || c == '\U{1680}' ||
    ('\U{2000}' <= c <= '\U{200A}') || c == '\U{2028}' || c == '\U{2029}' ||
    c == '\U{202F}' || c == '\U{205F}' || c == '\U{3000}' || c == '\U{FEFF}'
  }

  /** The characters the regex `.` does not match (LineTerminator). */
  predicate IsLineTerminator(c: char) {
    c == '\n' || c == '\r' || c == '\U{2028}' || c == '\U{2029}'
  }

  predicate AllWhitespace(s: string) {
    forall i :: 0 <= i < |s| ==> IsWhitespace(s[i])
  }

  /** Drops trailing whitespace. */
  function TrimEnd(s: string): (r: string)
    ensures |r| <= |s|
  {
    if s != [] && IsWhitespace(s[|s| - 1]) then TrimEnd(s[..|s| - 1]) else s
  }

  /** TrimEnd keeps a prefix and drops only whitespace, up to the last
      character that is not whitespace. */
  lemma {:induction false} TrimEndSpec(s: string)
    ensures TrimEnd(s) == s[..|TrimEnd(s)|]
    ensures AllWhitespace(s[|TrimEnd(s)|..])
    ensures TrimEnd(s) != [] ==> !IsWhitespace(TrimEnd(s)[|TrimEnd(s)| - 1])
  {
    if s != [] && IsWhitespace(s[|s| - 1]) {
      var p := s[..|s| - 1];
      TrimEndSpec(p);
      assert TrimEnd(s) == TrimEnd(p);
      assert s[|TrimEnd(p)|..] == p[|TrimEnd(p)|..] + [s[|s| - 1]];
    } else {
      assert TrimEnd(s) == s;
    }
  }

  /** Drops leading whitespace. */
  function TrimStart(s: string): (r: string)
    ensures |r| <= |s|
  {
    if s != [] && IsWhitespace(s[0]) then TrimStart(s[1..]) else s
  }

  /** TrimStart keeps a suffix and drops only whitespace, up to the first
      character that is not whitespace. */
  lemma {:induction false} TrimStartSpec(s: string)
    ensures TrimStart(s) == s[|s| - |TrimStart(s)|..]
    ensures AllWhitespace(s[..|s| - |TrimStart(s)|])
    ensures TrimStart(s) != [] ==> !IsWhitespace(TrimStart(s)[0])
  {
    if s != [] && IsWhitespace(s[0]) {
      var p := s[1..];
      TrimStartSpec(p);
      assert TrimStart(s) == TrimStart(p);
      assert s[..|s| - |TrimStart(p)|] == [s[0]] + p[..|p| - |TrimStart(p)|];
    } else {
      assert TrimStart(s) == s;
    }
  }

  /** `String.prototype.trim`: whitespace is removed from both ends. */
  function Trim(s: string): (r: string)
    ensures r != [] ==> !IsWhitespace(r[0]) && !IsWhitespace(r[|r| - 1])
    ensures r == [] <==> AllWhitespace(s)
  {
    var e := TrimEnd(s);
    TrimEndSpec(s);
    TrimStartSpec(e);
    assert AllWhitespace(s) <== AllWhitespace(e) by {
      assert s == e + s[|e|..];
    }
    TrimStart(e)
  }

  /** What `trim` removes is whitespace: `s` is its trimmed text padded on
      both sides. With TrimPadded this pins the result down. */
  lemma TrimSplit(s: string) returns (w1: string, w2: string)
    ensures AllWhitespace(w1) && AllWhitespace(w2)
    ensures s == w1 + Trim(s) + w2
  {
    var e := TrimEnd(s);
    var r := TrimStart(e);
    TrimEndSpec(s);
    TrimStartSpec(e);
    w1, w2 := e[..|e| - |r|], s[|e|..];
    calc {
      s;
    == { assert s == s[..|e|] + s[|e|..]; }
      e + w2;
    == { assert e == e[..|e| - |r|] + e[|e| - |r|..]; }
      w1 + r + w2;
    }
  }

  /** Trimming a padded text gives the text back: together with the contract
      of Trim this pins the result down completely. */
  lemma TrimPadded(w1: string, t: string, w2: string)
    requires AllWhitespace(w1) && AllWhitespace(w2)
    requires t != [] ==> !IsWhitespace(t[0]) && !IsWhitespace(t[|t| - 1])
    ensures Trim(w1 + t + w2) == t
  {
    if t == [] {
      assert w1 + t + w2 == w1 + w2;
      assert AllWhitespace(w1 + w2);
    } else {
      TrimEndPadded(w1 + t, w2);
      TrimStartPadded(w1, t);
    }
  }

  lemma {:induction false} TrimEndPadded(t: string, w: string)
    requires AllWhitespace(w)
    requires t != [] ==> !IsWhitespace(t[|t| - 1])
    ensures TrimEnd(t + w) == t
  {
    if w != [] {
      assert (t + w)[..|t + w| - 1] == t + w[..|w| - 1];
      TrimEndPadded(t, w[..|w| - 1]);
    } else {
      assert t + w == t;
    }
  }

  lemma {:induction false} TrimStartPadded(w: string, t: string)
    requires AllWhitespace(w)
    requires t != [] ==> !IsWhitespace(t[0])
    ensures TrimStart(w + t) == t
  {
    if w != [] {
      assert (w + t)[1..] == w[1..] + t;
      TrimStartPadded(w[1..], t);
    } else {
      assert w + t == t;
    }
  }

  predicate IsUpper(c: char) { 'A' <= c <= 'Z' }

  predicate IsLower(c: char) { 'a' <= c <= 'z' }

  predicate IsDigit(c: char) { '0' <= c <= '9' }

  /** The regex class `[a-zA-Z0-9]`. */
  predicate IsAlnum(c: char) { IsUpper(c) || IsLower(c) || IsDigit(c) }

  /** `toLowerCase` on one character, for the ASCII letters. */
  function ToLower(c: char): (r: char)
    ensures !IsUpper(r)
    ensures IsUpper(c) ==> IsLower(r) && r as int == c as int + 32
    ensures !IsUpper(c) ==> r == c
  {
    if IsUpper(c) then (c as int + 32) as char else c
  }

  /** `toUpperCase` on one character, for the ASCII letters. */
  function ToUpper(c: char): (r: char)
    ensures !IsLower(r)
    ensures IsLower(c) ==> IsUpper(r) && r as int == c as int - 32
    ensures !IsLower(c) ==> r == c
  {
    if IsLower(c) then (c as int - 32) as char else c
  }

  lemma LowerUpper(c: char)
    requires IsLower(c)
    ensures ToLower(ToUpper(c)) == c
  {
  }

  lemma UpperLower(c: char)
    requires IsUpper(c)
    ensures ToUpper(ToLower(c)) == c
  {
  }

  /** `toLowerCase` on a string. */
  function LowerAll(s: string): (r: string)
    ensures |r| == |s|
    ensures forall i :: 0 <= i < |s| ==> r[i] == ToLower(s[i])
  {
    if s == [] then [] else LowerAll(s[..|s| - 1]) + [ToLower(s[|s| - 1])]
  }

  predicate NoUpper(s: string) {
    forall i :: 0 <= i < |s| ==> !IsUpper(s[i])
  }

  lemma NoUpperConcat(a: string, b: string)
    requires NoUpper(a) && NoUpper(b)
    ensures NoUpper(a + b)
  {
  }

  lemma LowerAllAppend(a: string, b: string)
    ensures LowerAll(a + b) == LowerAll(a) + LowerAll(b)
  {
  }

  /** A string without capitals is its own lower case. */
  lemma LowerAllIdentity(s: string)
    requires NoUpper(s)
    ensures LowerAll(s) == s
  {
  }

  lemma LowerAllIdempotent(s: string)
    ensures LowerAll(LowerAll(s)) == LowerAll(s)
  {
  }

  lemma LowerAllWhitespace(w: string)
    requires AllWhitespace(w)
    ensures LowerAll(w) == w
  {
    LowerAllIdentity(w);
  }

  lemma LowerAllDropLast(s: string)
    requires s != []
    ensures LowerAll(s)[..|s| - 1] == LowerAll(s[..|s| - 1])
    ensures LowerAll(s)[|s| - 1] == ToLower(s[|s| - 1])
  {
  }

  lemma LowerAllDropFirst(s: string)
    requires s != []
    ensures LowerAll(s)[1..] == LowerAll(s[1..])
    ensures LowerAll(s)[0] == ToLower(s[0])
  {
  }

  lemma {:induction false} TrimEndLowerAll(s: string)
    ensures TrimEnd(LowerAll(s)) == LowerAll(TrimEnd(s))
  {
    if s != [] {
      LowerAllDropLast(s);
      if IsWhitespace(s[|s| - 1]) { TrimEndLowerAll(s[..|s| - 1]); }
    }
  }

  lemma {:induction false} TrimStartLowerAll(s: string)
    ensures TrimStart(LowerAll(s)) == LowerAll(TrimStart(s))
  {
    if s != [] && IsWhitespace(s[0]) {
      calc {
        TrimStart(LowerAll(s));
      == { LowerAllDropFirst(s); }
        TrimStart(LowerAll(s)[1..]);
      == { LowerAllDropFirst(s); }
        TrimStart(LowerAll(s[1..]));
      == { TrimStartLowerAll(s[1..]); }
        LowerAll(TrimStart(s[1..]));
      == { assert TrimStart(s) == TrimStart(s[1..]); }
        LowerAll(TrimStart(s));
      }
    } else if s != [] {
      assert TrimStart(s) == s;
      LowerAllDropFirst(s);
      assert !IsWhitespace(LowerAll(s)[0]);
      assert TrimStart(LowerAll(s)) == LowerAll(s);
    }
  }

  /** Lower-casing keeps whitespace where it is, so it commutes with `trim`. */
  lemma TrimLowerAll(s: string)
    ensures Trim(LowerAll(s)) == LowerAll(Trim(s))
  {
    TrimEndLowerAll(s);
    TrimStartLowerAll(TrimEnd(s));
  }

  predicate AllDigits(s: string) {
    forall i :: 0 <= i < |s| ==> IsDigit(s[i])
  }

  /** A match of the regex `\d+`. */
  predicate IsDigitRun(s: string) {
    s != [] && AllDigits(s)
  }

  function DigitValue(c: char): (d: nat)
    requires IsDigit(c)
    ensures d < 10
  {
    c as int - '0' as int
  }

  function Digit(d: nat): (c: char)
    requires d < 10
    ensures IsDigit(c) && DigitValue(c) == d
  {
    ('0' as int + d) as char
  }

  /** `parseInt(s, 10)` on a string of decimal digits. */
  function DecimalValue(s: string): nat
    requires AllDigits(s)
  {
    if s == [] then 0 else DecimalValue(s[..|s| - 1]) * 10 + DigitValue(s[|s| - 1])
  }

  /** The decimal digits of a natural number, as `String(n)` writes them. */
  function NatToString(n: nat): (r: string)
    ensures IsDigitRun(r)
    ensures |r| > 1 ==> r[0] != '0'
  {
    if n < 10 then [Digit(n)] else NatToString(n / 10) + [Digit(n % 10)]
  }

  /** `String(i)` for an integer. */
  function IntToString(i: int): (r: string)
    ensures r != []
    ensures i < 0 ==> r[0] == '-' && IsDigitRun(r[1..])
    ensures i >= 0 ==> IsDigitRun(r)
  {
    if i < 0 then "-" + NatToString(-i) else NatToString(i)
  }

  lemma DecimalValueAppend(s: string, c: char)
    requires AllDigits(s) && IsDigit(c)
    ensures AllDigits(s + [c])
    ensures DecimalValue(s + [c]) == DecimalValue(s) * 10 + DigitValue(c)
  {
    assert (s + [c])[..|s|] == s;
  }

  /** Parsing the digits printed for `n` gives `n` back. */
  lemma {:induction false} NatToStringRoundTrip(n: nat)
    ensures DecimalValue(NatToString(n)) == n
  {
    if n >= 10 {
      NatToStringRoundTrip(n / 10);
      DecimalValueAppend(NatToString(n / 10), Digit(n % 10));
    }
  }

  /** The position of a JavaScript `slice` bound in a sequence of length
      `len`: a negative bound counts from the end; both are clamped. */
  function SliceBound(k: int, len: nat): (r: nat)
    ensures r <= len
    ensures 0 <= k <= len ==> r == k
    ensures k < 0 ==> r == if len + k < 0 then 0 else len + k
    ensures k > len ==> r == len
  {
    if k < 0 then (if len + k < 0 then 0 else len + k)
    else if k > len then len
    else k
  }

  /** `s.slice(start, end)`. */
  function Slice<T>(s: seq<T>, start: int, end: int): (r: seq<T>)
    ensures |r| <= |s|
    ensures 0 <= start <= end <= |s| ==> r == s[start..end]
  {
    var from := SliceBound(start, |s|);
    var to := SliceBound(end, |s|);
    if from < to then s[from..to] else []
  }

  /** `s.slice(start)`. */
  function SliceFrom<T>(s: seq<T>, start: int): (r: seq<T>)
    ensures 0 <= start <= |s| ==> r == s[start..]
    ensures start > |s| ==> r == []
  {
    Slice(s, start, |s|)
  }

  /** `s.slice(0, -1)`: everything but the last element. */
  lemma SliceDropLast<T>(s: seq<T>)
    ensures Slice(s, 0, -1) == if s == [] then [] else s[..|s| - 1]
  {
  }

  /** The JavaScript relation `a < b` on strings: lexicographic on code
      units, a proper prefix being smaller. */
  predicate LexLess(a: string, b: string) {
    if a == [] then b != []
    else if b == [] then false
    else if a[0] == b[0] then LexLess(a[1..], b[1..])
    else a[0] < b[0]
  }

  /** The JavaScript relation `a <= b` on strings, i.e. `!(b < a)`. */
  predicate LexLe(a: string, b: string) {
    !LexLess(b, a)
  }

  lemma {:induction false} LexLessIrreflexive(a: string)
    ensures !LexLess(a, a)
  {
    if a != [] { LexLessIrreflexive(a[1..]); }
  }

  lemma {:induction false} LexLessAsymmetric(a: string, b: string)
    requires LexLess(a, b)
    ensures !LexLess(b, a)
  {
    if a != [] && b != [] && a[0] == b[0] { LexLessAsymmetric(a[1..], b[1..]); }
  }

  lemma {:induction false} LexTotal(a: string, b: string)
    ensures LexLess(a, b) || a == b || LexLess(b, a)
  {
    if a != [] && b != [] && a[0] == b[0] {
      LexTotal(a[1..], b[1..]);
      if a[1..] == b[1..] { assert a == [a[0]] + a[1..]; assert b == [b[0]] + b[1..]; }
    }
  }

  lemma {:induction false} LexLessTransitive(a: string, b: string, c: string)
    requires LexLess(a, b) && LexLess(b, c)
    ensures LexLess(a, c)
  {
    if a != [] && a[0] == b[0] && b[0] == c[0] {
      LexLessTransitive(a[1..], b[1..], c[1..]);
    }
  }

  /** `<=` on strings is a total order. */
  lemma LexLeTransitive(a: string, b: string, c: string)
    requires LexLe(a, b) && LexLe(b, c)
    ensures LexLe(a, c)
  {
    if LexLess(c, a) {
      LexTotal(a, b);
      LexTotal(b, c);
      if a == b { assert false; }
      else if b == c { assert false; }
      else {
        LexLessTransitive(a, b, c);
        LexLessAsymmetric(a, c);
      }
    }
  }

  lemma LexLeTotal(a: string, b: string)
    ensures LexLe(a, b) || LexLe(b, a)
  {
    if LexLess(b, a) { LexLessAsymmetric(b, a); }
  }

  /** A string compares at or below anything it is a prefix of: a date
      "YYYY-MM-DD" is `<=` every timestamp "YYYY-MM-DD HH:MM:SS" of that day. */
  lemma {:induction false} LexLePrefix(a: string, t: string)
    ensures LexLe(a, a + t)
  {
    if a != [] {
      assert (a + t)[1..] == a[1..] + t;
      LexLePrefix(a[1..], t);
    }
  }

  /** `s.split(c)[0]`: the part of `s` before the first `c`. */
  function BeforeFirst(s: string, c: char): (r: string)
    ensures r <= s && c !in r
    ensures |r| < |s| ==> s[|r|] == c
  {
    if s == [] || s[0] == c then [] else [s[0]] + BeforeFirst(s[1..], c)
  }
}
