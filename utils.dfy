/** Key-case conversion (src/utils.js): `toSnakeCase`, `toCamelCase` and the
    `reduce` folds that rebuild an object under renamed keys. Objects are
    given as their own enumerable properties in `Object.keys` order; the
    objects built are maps. */
module Utils {
  import opened JsString
  import opened JsValue

  // ---------------------------------------------------------------- toSnakeCase

  /** `str.replace(/\s+/g, '_')`: every maximal run of whitespace becomes one
      underscore. */
  function CollapseWhitespace(s: string): (r: string)
  {
    CollapseFrom(s, false)
  }

  /** The scan behind CollapseWhitespace; `inRun` tells whether the character
      before `s` was whitespace, whose run has already produced its '_'. */
  function CollapseFrom(s: string, inRun: bool): (r: string)
  {
    if s == [] then [] else CollapseChar(s[0], inRun) + CollapseFrom(s[1..], IsWhitespace(s[0]))
  }

  /** What one character contributes: whitespace opens a run with '_' or
      continues one with nothing; anything else is copied. */
  function CollapseChar(c: char, inRun: bool): string {
    if !IsWhitespace(c) then [c] else if inRun then [] else "_"
  }

  lemma CollapseCons(c: char, s: string, inRun: bool)
    ensures CollapseFrom([c] + s, inRun) == CollapseChar(c, inRun) + CollapseFrom(s, IsWhitespace(c))
  {
    assert ([c] + s)[1..] == s;
  }

  lemma {:induction false} CollapseFromNoWhitespace(s: string, inRun: bool)
    ensures NoWhitespace(CollapseFrom(s, inRun))
  {
    if s != [] { CollapseFromNoWhitespace(s[1..], IsWhitespace(s[0])); }
  }

  predicate NoWhitespace(s: string) {
    forall i :: 0 <= i < |s| ==> !IsWhitespace(s[i])
  }

  /** Whether a scan is inside a whitespace run after reading `s`. */
  function InRunAfter(s: string, inRun: bool): bool {
    if s == [] then inRun else IsWhitespace(s[|s| - 1])
  }

  lemma {:induction false} CollapseAppend(x: string, y: string, inRun: bool)
    ensures CollapseFrom(x + y, inRun) == CollapseFrom(x, inRun) + CollapseFrom(y, InRunAfter(x, inRun))
  {
    if x == [] {
      assert x + y == y;
    } else {
      var ws := IsWhitespace(x[0]);
      CollapseFirst(x, y, inRun);
      CollapseAppend(x[1..], y, ws);
      InRunAfterTail(x, inRun);
      Associative(CollapseChar(x[0], inRun), CollapseFrom(x[1..], ws), CollapseFrom(y, InRunAfter(x, inRun)));
    }
  }

  lemma Associative(a: string, b: string, c: string)
    ensures a + (b + c) == (a + b) + c
  {
  }

  lemma InRunAfterTail(x: string, inRun: bool)
    requires x != []
    ensures InRunAfter(x[1..], IsWhitespace(x[0])) == InRunAfter(x, inRun)
  {
    if |x| > 1 { assert x[1..][|x| - 2] == x[|x| - 1]; }
  }

  /** Both `x + y` and `x` start with the contribution of `x`'s first
      character. */
  lemma CollapseFirst(x: string, y: string, inRun: bool)
    requires x != []
    ensures CollapseFrom(x + y, inRun) == CollapseChar(x[0], inRun) + CollapseFrom(x[1..] + y, IsWhitespace(x[0]))
    ensures CollapseFrom(x, inRun) == CollapseChar(x[0], inRun) + CollapseFrom(x[1..], IsWhitespace(x[0]))
  {
    assert (x + y)[0] == x[0] && (x + y)[1..] == x[1..] + y;
  }

  lemma {:induction false} CollapseRunOnly(w: string, inRun: bool)
    requires AllWhitespace(w)
    ensures CollapseFrom(w, inRun) == if w == [] || inRun then [] else "_"
  {
    if w != [] {
      CollapseRunOnly(w[1..], true);
    }
  }

  predicate EndsInWhitespace(s: string) { s != [] && IsWhitespace(s[|s| - 1]) }

  predicate StartsInWhitespace(s: string) { s != [] && IsWhitespace(s[0]) }

  /** Each whitespace run between two non-whitespace parts turns into exactly
      one underscore, and the parts are converted independently. */
  lemma CollapseWhitespaceRun(a: string, w: string, b: string)
    requires !EndsInWhitespace(a) && !StartsInWhitespace(b)
    requires w != [] && AllWhitespace(w)
    ensures CollapseWhitespace(a + w + b) == CollapseWhitespace(a) + "_" + CollapseWhitespace(b)
  {
    CollapseAppend(a + w, b, false);
    CollapseAppend(a, w, false);
    assert InRunAfter(a, false) == false;
    CollapseRunOnly(w, false);
    assert InRunAfter(a + w, false) == true;
    assert CollapseFrom(b, true) == CollapseFrom(b, false);
  }

  /** `replace(/([A-Z])/g, '_$1')`: an underscore before each capital. */
  function MarkCapitals(s: string): (r: string)
  {
    if s == [] then []
    else (if IsUpper(s[0]) then ['_', s[0]] else [s[0]]) + MarkCapitals(s[1..])
  }

  function ToSnakeCase(s: string): (r: string)
  {
    LowerAll(MarkCapitals(CollapseWhitespace(s)))
  }

  /** The snake-cased name has no capitals and no whitespace left. */
  lemma SnakeCaseIsLowerWithoutSpaces(s: string)
    ensures NoUpper(ToSnakeCase(s)) && NoWhitespace(ToSnakeCase(s))
  {
    var c := CollapseWhitespace(s);
    CollapseFromNoWhitespace(s, false);
    MarkCapitalsKeepsWhitespaceFree(c);
    var m := MarkCapitals(c);
    var r := LowerAll(m);
    forall i | 0 <= i < |r| ensures !IsWhitespace(r[i]) {
      assert r[i] == ToLower(m[i]);
    }
  }

  lemma {:induction false} MarkCapitalsKeepsWhitespaceFree(s: string)
    requires NoWhitespace(s)
    ensures NoWhitespace(MarkCapitals(s))
  {
    if s != [] {
      MarkCapitalsKeepsWhitespaceFree(s[1..]);
      var head := if IsUpper(s[0]) then ['_', s[0]] else [s[0]];
      assert MarkCapitals(s) == head + MarkCapitals(s[1..]);
    }
  }

  lemma {:induction false} MarkCapitalsAppend(a: string, b: string)
    ensures MarkCapitals(a + b) == MarkCapitals(a) + MarkCapitals(b)
  {
    if a == [] {
      assert a + b == b;
    } else {
      assert (a + b)[1..] == a[1..] + b;
      MarkCapitalsAppend(a[1..], b);
    }
  }

  /** Without whitespace, each capital X turns into '_' followed by the lower
      case X and every other character is kept, character by character. */
  lemma {:induction false} SnakeCaseCons(c: char, s: string)
    requires !IsWhitespace(c)
    ensures ToSnakeCase([c] + s) ==
      (if IsUpper(c) then ['_', ToLower(c)] else [c]) + ToSnakeCase(s)
  {
    var t := [c] + s;
    assert t[1..] == s;
    assert CollapseWhitespace(t) == [c] + CollapseWhitespace(s);
    MarkCapitalsAppend([c], CollapseWhitespace(s));
    assert MarkCapitals([c]) == (if IsUpper(c) then ['_', c] else [c]) by {
      assert [c][1..] == [];
    }
    LowerAllAppend(MarkCapitals([c]), MarkCapitals(CollapseWhitespace(s)));
  }

  // ---------------------------------------------------------------- toCamelCase

  /** The length of the run of characters outside `[a-zA-Z0-9]` that `s`
      starts with. */
  function LeadingRun(s: string): (k: nat)
    ensures k <= |s|
  {
    if s == [] || IsAlnum(s[0]) then 0 else 1 + LeadingRun(s[1..])
  }

  /** The run is maximal: it holds no letter or digit and is followed by one
      or by the end of the string. */
  lemma {:induction false} LeadingRunMaximal(s: string)
    ensures NoAlnum(s[..LeadingRun(s)])
    ensures LeadingRun(s) < |s| ==> IsAlnum(s[LeadingRun(s)])
  {
    if s != [] && !IsAlnum(s[0]) {
      LeadingRunMaximal(s[1..]);
      assert s[..LeadingRun(s)] == [s[0]] + s[1..][..LeadingRun(s[1..])];
    }
  }

  /** The last position, after the first, at which `.` can match, if any. */
  function LastMatchable(r: string): (p: nat)
    ensures p < |r| || p == 0
  {
    if |r| <= 1 then 0
    else if !IsLineTerminator(r[|r| - 1]) then |r| - 1
    else LastMatchable(r[..|r| - 1])
  }

  /** Every later character is a line terminator, which `.` does not match. */
  lemma {:induction false} LastMatchableSpec(r: string)
    ensures LastMatchable(r) > 0 ==> !IsLineTerminator(r[LastMatchable(r)])
    ensures forall i :: LastMatchable(r) < i < |r| ==> IsLineTerminator(r[i])
  {
    if |r| > 1 && IsLineTerminator(r[|r| - 1]) {
      LastMatchableSpec(r[..|r| - 1]);
    }
  }

  /** `str.replace(/[^a-zA-Z0-9]+(.)/g, (m, chr) => chr.toUpperCase())`.
      A run followed by an alphanumeric character is replaced by that
      character in upper case. A run that ends the string is matched by
      backtracking: the last character of the run that `.` accepts becomes
      the replacement, so a run of one character stays as it is. */
  function ToCamelCase(s: string): (r: string)
    decreases |s|, 1
  {
    if s == [] then []
    else if IsAlnum(s[0]) then [s[0]] + ToCamelCase(s[1..])
    else CamelRun(s)
  }

  /** The replacement for the run `s` starts with, followed by the rest. */
  function CamelRun(s: string): (r: string)
    requires s != []
    decreases |s|, 0
  {
    var k := LeadingRun(s);
    if k < |s| then [ToUpper(s[k])] + ToCamelCase(s[k + 1..])
    else
      var p := LastMatchable(s);
      if p == 0 then s else [ToUpper(s[p])] + s[p + 1..]
  }

  predicate NoAlnum(s: string) {
    forall i :: 0 <= i < |s| ==> !IsAlnum(s[i])
  }

  lemma {:induction false} LeadingRunOf(w: string, t: string)
    requires NoAlnum(w)
    requires t != [] ==> IsAlnum(t[0])
    ensures LeadingRun(w + t) == |w|
  {
    if w != [] {
      assert (w + t)[1..] == w[1..] + t;
      LeadingRunOf(w[1..], t);
    } else {
      assert w + t == t;
    }
  }

  lemma CamelCaseCons(c: char, r: string)
    requires IsAlnum(c)
    ensures ToCamelCase([c] + r) == [c] + ToCamelCase(r)
  {
    assert ([c] + r)[1..] == r;
  }

  lemma AlnumStringTail(a: string)
    requires a != [] && IsAlnumString(a)
    ensures IsAlnum(a[0]) && IsAlnumString(a[1..])
  {
    forall i | 0 <= i < |a| - 1 ensures IsAlnum(a[1..][i]) {
      assert a[1..][i] == a[i + 1];
    }
  }

  /** Letters and digits are copied unchanged. */
  lemma {:induction false} CamelCaseAlnumPrefix(a: string, t: string)
    requires IsAlnumString(a)
    ensures ToCamelCase(a + t) == a + ToCamelCase(t)
  {
    if a == [] {
      assert a + t == t;
      assert a + ToCamelCase(t) == ToCamelCase(t);
    } else {
      var c, a' := a[0], a[1..];
      AlnumStringTail(a);
      var x := ToCamelCase(t);
      calc {
        ToCamelCase(a + t);
      == { assert a + t == [c] + (a' + t); }
        ToCamelCase([c] + (a' + t));
      == { CamelCaseCons(c, a' + t); }
        [c] + ToCamelCase(a' + t);
      == { CamelCaseAlnumPrefix(a', t); }
        [c] + (a' + x);
      == { assert [c] + (a' + x) == ([c] + a') + x; assert [c] + a' == a; }
        a + x;
      }
    }
  }

  /** A run of separators followed by a letter or digit becomes that
      character in upper case. */
  lemma CamelCaseInnerRun(w: string, c: char, t: string)
    requires w != [] && NoAlnum(w) && IsAlnum(c)
    ensures ToCamelCase(w + [c] + t) == [ToUpper(c)] + ToCamelCase(t)
  {
    var u := w + [c] + t;
    assert u == w + ([c] + t);
    LeadingRunOf(w, [c] + t);
    assert u[|w|] == c && u[|w| + 1..] == t;
  }

  /** A single separator at the end of the string is kept as it is. */
  lemma CamelCaseTrailingSeparator(a: string, c: char)
    requires IsAlnumString(a) && !IsAlnum(c)
    ensures ToCamelCase(a + [c]) == a + [c]
  {
    CamelCaseAlnumPrefix(a, [c]);
    assert LeadingRun([c]) == 1;
  }

  /** A longer run at the end of the string becomes its last character, in
      upper case, when that character is not a line terminator. */
  lemma CamelCaseTrailingRun(a: string, w: string)
    requires IsAlnumString(a) && NoAlnum(w) && |w| >= 2
    requires !IsLineTerminator(w[|w| - 1])
    ensures ToCamelCase(a + w) == a + [ToUpper(w[|w| - 1])]
  {
    CamelCaseAlnumPrefix(a, w);
    LeadingRunOf(w, []);
    assert w + [] == w;
    assert LastMatchable(w) == |w| - 1 && w[|w|..] == [];
    assert CamelRun(w) == [ToUpper(w[|w| - 1])];
    assert !IsAlnum(w[0]);
  }

  predicate IsAlnumString(s: string) {
    forall i :: 0 <= i < |s| ==> IsAlnum(s[i])
  }

  /** The two conversions are inverse on identifiers made of ASCII letters
      and digits: `toCamelCase(toSnakeCase(s)) == s`. */
  lemma CamelOfSnakeStep(c: char, rest: string)
    requires IsAlnum(c)
    ensures ToCamelCase(ToSnakeCase([c] + rest)) == [c] + ToCamelCase(ToSnakeCase(rest))
  {
    SnakeCaseCons(c, rest);
    if IsUpper(c) {
      CamelOfMarkedCapital(c, ToSnakeCase(rest));
    } else {
      CamelCaseCons(c, ToSnakeCase(rest));
    }
  }

  lemma CamelOfMarkedCapital(c: char, t: string)
    requires IsUpper(c)
    ensures ToCamelCase(['_', ToLower(c)] + t) == [c] + ToCamelCase(t)
  {
    var d := ToLower(c);
    var u := ['_', d] + t;
    assert u[0] == '_' && u[1] == d && IsAlnum(d);
    assert LeadingRun(u) == 1 by {
      assert u[1..] == [d] + t;
    }
    assert u[2..] == t;
    UpperLower(c);
  }

  lemma {:induction false} CamelOfSnake(s: string)
    requires IsAlnumString(s)
    ensures ToCamelCase(ToSnakeCase(s)) == s
  {
    if s == [] {
      assert ToSnakeCase(s) == [];
    } else {
      var c, rest := s[0], s[1..];
      AlnumStringTail(s);
      calc {
        ToCamelCase(ToSnakeCase(s));
      == { assert s == [c] + rest; }
        ToCamelCase(ToSnakeCase([c] + rest));
      == { CamelOfSnakeStep(c, rest); }
        [c] + ToCamelCase(ToSnakeCase(rest));
      == { CamelOfSnake(rest); }
        [c] + rest;
      }
    }
  }

  // ---------------------------------------------------------------- objects

  /** An object's own enumerable properties in `Object.keys` order. */
  type Properties = seq<(string, Value)>

  predicate DistinctKeys(obj: Properties) {
    forall i, j :: 0 <= i < j < |obj| ==> obj[i].0 != obj[j].0
  }

  function Keys(obj: Properties): set<string> {
    set i | 0 <= i < |obj| :: obj[i].0
  }

  /** `obj[k]`, `undefined` for a missing key. */
  function Get(obj: Properties, k: string): (v: Value)
    ensures k !in Keys(obj) ==> v == Undefined
  {
    if obj == [] then Undefined
    else if obj[|obj| - 1].0 == k then obj[|obj| - 1].1
    else Get(obj[..|obj| - 1], k)
  }

  lemma {:induction false} GetAt(obj: Properties, i: nat)
    requires DistinctKeys(obj) && i < |obj|
    ensures Get(obj, obj[i].0) == obj[i].1
  {
    if i < |obj| - 1 { GetAt(obj[..|obj| - 1], i); }
  }

  /** `Object.keys(obj).reduce((pv, cv) => { pv[rename(cv)] = obj[cv]; return pv }, {})`:
      later keys overwrite earlier ones that rename to the same key. */
  function RenameKeys(obj: Properties, rename: string -> string): (r: map<string, Value>)
  {
    if obj == [] then map[]
    else RenameKeys(obj[..|obj| - 1], rename)[rename(obj[|obj| - 1].0) := obj[|obj| - 1].1]
  }

  /** Every renamed key is in the result, and nothing else is. */
  lemma {:induction false} RenameKeysDomain(obj: Properties, rename: string -> string)
    ensures forall i :: 0 <= i < |obj| ==> rename(obj[i].0) in RenameKeys(obj, rename)
    ensures forall k :: k in RenameKeys(obj, rename) ==>
      exists i :: 0 <= i < |obj| && rename(obj[i].0) == k
  {
    if obj != [] {
      var init := obj[..|obj| - 1];
      RenameKeysDomain(init, rename);
      forall k | k in RenameKeys(obj, rename)
        ensures exists i :: 0 <= i < |obj| && rename(obj[i].0) == k
      {
        if k != rename(obj[|obj| - 1].0) {
          assert RenameKeys(obj, rename) == RenameKeys(init, rename)[rename(obj[|obj| - 1].0) := obj[|obj| - 1].1];
          assert k in RenameKeys(init, rename);
          var i :| 0 <= i < |init| && rename(init[i].0) == k;
          assert obj[i] == init[i];
        }
      }
      forall i | 0 <= i < |init| ensures rename(obj[i].0) in RenameKeys(obj, rename) {
        assert obj[i] == init[i];
      }
    }
  }

  /** A key holds the value of the last property that renames to it. */
  lemma {:induction false} RenameKeysValue(obj: Properties, rename: string -> string, i: nat)
    requires i < |obj|
    requires forall j :: i < j < |obj| ==> rename(obj[j].0) != rename(obj[i].0)
    ensures rename(obj[i].0) in RenameKeys(obj, rename)
    ensures RenameKeys(obj, rename)[rename(obj[i].0)] == obj[i].1
  {
    if i < |obj| - 1 {
      var init := obj[..|obj| - 1];
      assert init[i] == obj[i];
      forall j | i < j < |init| ensures rename(init[j].0) != rename(init[i].0) {
        assert init[j] == obj[j];
      }
      RenameKeysValue(init, rename, i);
    }
  }

  /** A renaming that is one-to-one on the keys keeps every value. */
  lemma RenameKeysInjective(obj: Properties, rename: string -> string)
    requires forall i, j :: 0 <= i < j < |obj| ==> rename(obj[i].0) != rename(obj[j].0)
    ensures forall i :: 0 <= i < |obj| ==>
      rename(obj[i].0) in RenameKeys(obj, rename) && RenameKeys(obj, rename)[rename(obj[i].0)] == obj[i].1
  {
    forall i | 0 <= i < |obj|
      ensures rename(obj[i].0) in RenameKeys(obj, rename) && RenameKeys(obj, rename)[rename(obj[i].0)] == obj[i].1
    {
      RenameKeysValue(obj, rename, i);
    }
  }

  /** `convToSnake`. */
  function ConvToSnake(obj: Properties): (r: map<string, Value>)
  {
    RenameKeys(obj, ToSnakeCase)
  }

  /** `mapToCamel`. */
  function MapToCamel(obj: Properties): (r: map<string, Value>)
  {
    RenameKeys(obj, ToCamelCase)
  }

  /** `convToSnake` keeps a property's value under its snake-cased name when
      no later property snake-cases to the same name, and has no other keys. */
  lemma ConvToSnakeKeepsValues(obj: Properties, i: nat)
    requires i < |obj|
    requires forall j :: i < j < |obj| ==> ToSnakeCase(obj[j].0) != ToSnakeCase(obj[i].0)
    ensures ToSnakeCase(obj[i].0) in ConvToSnake(obj)
    ensures ConvToSnake(obj)[ToSnakeCase(obj[i].0)] == obj[i].1
    ensures forall k :: k in ConvToSnake(obj) ==> exists j :: 0 <= j < |obj| && ToSnakeCase(obj[j].0) == k
  {
    RenameKeysValue(obj, ToSnakeCase, i);
    RenameKeysDomain(obj, ToSnakeCase);
  }

  /** The same for `mapToCamel`. */
  lemma MapToCamelKeepsValues(obj: Properties, i: nat)
    requires i < |obj|
    requires forall j :: i < j < |obj| ==> ToCamelCase(obj[j].0) != ToCamelCase(obj[i].0)
    ensures ToCamelCase(obj[i].0) in MapToCamel(obj)
    ensures MapToCamel(obj)[ToCamelCase(obj[i].0)] == obj[i].1
    ensures forall k :: k in MapToCamel(obj) ==> exists j :: 0 <= j < |obj| && ToCamelCase(obj[j].0) == k
  {
    RenameKeysValue(obj, ToCamelCase, i);
    RenameKeysDomain(obj, ToCamelCase);
  }

  /** `mapObjToSnake(obj, keys)`: copies the listed keys whose value is truthy
      (despite its name it renames nothing). */
  function MapObjToSnake(obj: Properties, keys: seq<string>): (r: map<string, Value>)
    ensures r.Keys == set i | 0 <= i < |keys| && Truthy(Get(obj, keys[i])) :: keys[i]
    ensures forall k :: k in r ==> r[k] == Get(obj, k)
  {
    if keys == [] then map[]
    else
      var init := keys[..|keys| - 1];
      var pv := MapObjToSnake(obj, init);
      var cv := keys[|keys| - 1];
      assert forall i :: 0 <= i < |init| ==> init[i] == keys[i];
      if !Truthy(Get(obj, cv)) then pv else pv[cv := Get(obj, cv)]
  }
}
