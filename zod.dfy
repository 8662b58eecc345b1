/**
 * The parts of the zod schema library that the validators use: type checks,
 * string rules applied in declaration order, bounded integers, records of
 * strings, and zod's issue messages. zod's built-in texts are those of its
 * default error map.
 */
module Zod {
  import opened Wrappers
  import opened Json
  import Text

  /** One validation issue: where it is and what it says. */
  datatype Issue = Issue(path: seq<string>, message: string)

  function Messages(issues: seq<Issue>): (ms: seq<string>)
    ensures |ms| == |issues|
    ensures forall i :: 0 <= i < |ms| ==> ms[i] == issues[i].message
  {
    if |issues| == 0 then [] else [issues[0].message] + Messages(issues[1..])
  }

  lemma {:induction false} MessagesAppend(a: seq<Issue>, b: seq<Issue>)
    ensures Messages(a + b) == Messages(a) + Messages(b)
  {
    if |a| == 0 {
      assert a + b == b;
    } else {
      assert (a + b)[1..] == a[1..] + b;
      MessagesAppend(a[1..], b);
    }
  }

  /** The issue messages joined with ", ", as every caller of zod here reports them. */
  function Summary(issues: seq<Issue>): string
  {
    Text.Join(Messages(issues), ", ")
  }

  /** zod's name for the type of a value; `None` is `undefined`. */
  function ParsedType(v: Option<Json>): string
  {
    match v
    case None => "undefined"
    case Some(JNull) => "null"
    case Some(JBool(_)) => "boolean"
    case Some(JNum(_)) => "number"
    case Some(JStr(_)) => "string"
    case Some(JArr(_)) => "array"
    case Some(JObj(_)) => "object"
  }

  /** Message of an `invalid_type` issue. */
  function InvalidType(expected: string, v: Option<Json>): string
  {
    if v.None? then "Required" else "Expected " + expected + ", received " + ParsedType(v)
  }

  /** Message of an `invalid_literal` issue for a string literal. */
  function InvalidLiteral(expected: string): string
  {
    "Invalid literal value, expected \"" + expected + "\""
  }

  const InvalidUnion := "Invalid input"

  /** Issues raised by `z.object(...)` on a value that is not an object. */
  function NotObject(path: seq<string>, v: Option<Json>): seq<Issue>
  {
    if v.Some? && v.value.JObj? then [] else [Issue(path, InvalidType("object", v))]
  }

  predicate IsInteger(n: real)
  {
    n == n.Floor as real
  }

  /**
   * `z.number().int().min(lo)` followed by `.max(hi)` when `hi` is given, on a
   * value that is present. Every failed check adds its issue.
   */
  function BoundedInt(path: seq<string>, v: Json, lo: int, hi: Option<int>): (r: Result<int, seq<Issue>>)
    ensures r.Success? <==>
      v.JNum? && IsInteger(v.n) && lo as real <= v.n && (hi.Some? ==> v.n <= hi.value as real)
    ensures r.Success? ==> r.value as real == v.n
    ensures r.Failure? ==> |r.error| >= 1
  {
    if !v.JNum? then Failure([Issue(path, InvalidType("number", Some(v)))])
    else
      var n := v.n;
      var issues :=
        (if IsInteger(n) then [] else [Issue(path, "Expected integer, received float")])
        + (if n < lo as real
           then [Issue(path, "Number must be greater than or equal to " + Text.IntToString(lo))]
           else [])
        + (if hi.Some? && n > hi.value as real
           then [Issue(path, "Number must be less than or equal to " + Text.IntToString(hi.value))]
           else []);
      if issues == [] then Success(n.Floor) else Failure(issues)
  }

  /**
   * The same rule behind `.default(d).optional()`: an absent value stays
   * absent (the default is never applied), a present one, `null` included,
   * must satisfy the rule.
   */
  function OptionalBoundedInt(path: seq<string>, v: Option<Json>, lo: int, hi: Option<int>)
    : (r: Result<Option<int>, seq<Issue>>)
    ensures v.None? ==> r == Success(None)
    ensures v.Some? ==> (r.Success? <==> BoundedInt(path, v.value, lo, hi).Success?)
    ensures r.Success? && v.Some? ==> r.value == Some(BoundedInt(path, v.value, lo, hi).value)
  {
    if v.None? then Success(None)
    else match BoundedInt(path, v.value, lo, hi)
      case Success(n) => Success(Some(n))
      case Failure(e) => Failure(e)
  }

  /** A check or transform of `z.string()`, in the order the schema declares it. */
  datatype StringRule =
    | TrimRule
    | MinLength(min: nat, message: string)
    | MaxLength(max: nat, message: string)
    | Format(accepts: string -> bool, message: string)

  /** Runs the rules over `s`: `trim` replaces the value, the others add issues. */
  function ApplyRules(path: seq<string>, s: string, rules: seq<StringRule>): (string, seq<Issue>)
    decreases |rules|
  {
    if |rules| == 0 then (s, [])
    else
      var s' := if rules[0].TrimRule? then Text.Trim(s) else s;
      var here :=
        match rules[0]
        case TrimRule => []
        case MinLength(min, message) => if |s| < min then [Issue(path, message)] else []
        case MaxLength(max, message) => if |s| > max then [Issue(path, message)] else []
        case Format(accepts, message) => if accepts(s) then [] else [Issue(path, message)];
      var (out, rest) := ApplyRules(path, s', rules[1..]);
      (out, here + rest)
  }

  /** `z.string()` with its rules, on a present or absent value. */
  function CheckString(path: seq<string>, v: Option<Json>, rules: seq<StringRule>): (r: Result<string, seq<Issue>>)
    ensures !(v.Some? && v.value.JStr?) ==> r == Failure([Issue(path, InvalidType("string", v))])
    ensures v.Some? && v.value.JStr? ==>
      var (out, issues) := ApplyRules(path, v.value.s, rules);
      r == if issues == [] then Success(out) else Failure(issues)
  {
    if !(v.Some? && v.value.JStr?) then Failure([Issue(path, InvalidType("string", v))])
    else
      var (out, issues) := ApplyRules(path, v.value.s, rules);
      if issues == [] then Success(out) else Failure(issues)
  }

  /** `z.string()...optional()`: absent is accepted as absent. */
  function OptionalString(path: seq<string>, v: Option<Json>, rules: seq<StringRule>): (r: Result<Option<string>, seq<Issue>>)
    ensures v.None? ==> r == Success(None)
    ensures v.Some? ==> match CheckString(path, v, rules)
                        case Success(s) => r == Success(Some(s))
                        case Failure(e) => r == Failure(e)
  {
    if v.None? then Success(None)
    else match CheckString(path, v, rules)
      case Success(s) => Success(Some(s))
      case Failure(e) => Failure(e)
  }

  /** `z.record(z.string(), z.string())`. */
  function StringRecord(path: seq<string>, v: Option<Json>): (r: Result<map<string, string>, seq<Issue>>)
    ensures r.Success? <==> v.Some? && v.value.JObj? && AllStrings(v.value.members)
    ensures r.Success? ==> RecordOf(v.value.members, r.value)
  {
    if !(v.Some? && v.value.JObj?) then Failure([Issue(path, InvalidType("object", v))])
    else
      var issues := EntryIssues(path, v.value.members);
      if issues == [] then Success(EntryMap(v.value.members)) else Failure(issues)
  }

  predicate AllStrings(members: seq<(string, Json)>)
  {
    forall i :: 0 <= i < |members| ==> members[i].1.JStr?
  }

  /** `m` holds every property of the object, each with its string value. */
  ghost predicate RecordOf(members: seq<(string, Json)>, m: map<string, string>)
  {
    && (forall i :: 0 <= i < |members| ==> members[i].0 in m)
    && (forall k :: k in m ==> exists i :: 0 <= i < |members| && members[i] == (k, JStr(m[k])))
  }

  /** One issue per property whose value is not a string, in property order. */
  function EntryIssues(path: seq<string>, members: seq<(string, Json)>): (issues: seq<Issue>)
    ensures issues == [] <==> AllStrings(members)
  {
    if |members| == 0 then []
    else
      (if members[0].1.JStr? then []
       else [Issue(path + [members[0].0], InvalidType("string", Some(members[0].1)))])
      + EntryIssues(path, members[1..])
  }

  /**
   * The record built from string-valued properties. Of two properties with
   * the same name the first gives the value, as it does for `Get`
   * (`EntryMapLookup`).
   */
  function EntryMap(members: seq<(string, Json)>): (m: map<string, string>)
    requires AllStrings(members)
    ensures RecordOf(members, m)
  {
    if |members| == 0 then map[]
    else
      var rest := EntryMap(members[1..]);
      var k := members[0].0;
      var m := rest[k := members[0].1.s];
      assert forall i :: 1 <= i < |members| ==> members[i] == members[1..][i - 1];
      m
  }

  /** Each name of the record holds the string the property lookup finds under it. */
  lemma {:induction false} EntryMapLookup(members: seq<(string, Json)>, k: string)
    requires AllStrings(members) && k in EntryMap(members)
    ensures Get(members, k) == Some(JStr(EntryMap(members)[k]))
    decreases |members|
  {
    if members[0].0 != k {
      assert AllStrings(members[1..]) by {
        assert forall i :: 0 <= i < |members[1..]| ==> members[1..][i] == members[i + 1];
      }
      EntryMapLookup(members[1..], k);
    }
  }

  /** The issues of a failed check, none for a passed one. */
  function IssuesOf<T>(r: Result<T, seq<Issue>>): (issues: seq<Issue>)
    ensures r.Success? ==> issues == []
  {
    if r.Failure? then r.error else []
  }

  /** `trim()` first: the remaining rules run on the trimmed value. */
  lemma TrimFirst(path: seq<string>, s: string, rules: seq<StringRule>)
    ensures ApplyRules(path, s, [TrimRule] + rules) == ApplyRules(path, Text.Trim(s), rules)
  {
    var rs := [TrimRule] + rules;
    assert rs[0] == TrimRule && rs[1..] == rules;
    var after := ApplyRules(path, Text.Trim(s), rules);
    assert ApplyRules(path, s, rs) == (after.0, [] + after.1);
    assert [] + after.1 == after.1;
  }

  /** `.min(min, a).max(max, b)` on a value: the value unchanged, and one issue per bound it breaks. */
  lemma LengthWindow(path: seq<string>, s: string, min: nat, a: string, max: nat, b: string)
    ensures ApplyRules(path, s, [MinLength(min, a), MaxLength(max, b)]) ==
      (s, (if |s| < min then [Issue(path, a)] else []) + (if |s| > max then [Issue(path, b)] else []))
  {
    var rules := [MinLength(min, a), MaxLength(max, b)];
    assert rules[1..] == [MaxLength(max, b)];
    MaxOnly(path, s, max, b);
    var head := if |s| < min then [Issue(path, a)] else [];
    assert ApplyRules(path, s, rules) == (s, head + ApplyRules(path, s, [MaxLength(max, b)]).1);
  }

  /** `.max(max, b)` alone. */
  lemma MaxOnly(path: seq<string>, s: string, max: nat, b: string)
    ensures ApplyRules(path, s, [MaxLength(max, b)]) == (s, if |s| > max then [Issue(path, b)] else [])
  {
    assert [MaxLength(max, b)][1..] == [];
    var here := if |s| > max then [Issue(path, b)] else [];
    assert here + [] == here;
  }

  /** A format check alone (`.uuid(m)`, `.url(m)`). */
  lemma FormatOnly(path: seq<string>, s: string, accepts: string -> bool, m: string)
    ensures ApplyRules(path, s, [Format(accepts, m)]) == (s, if accepts(s) then [] else [Issue(path, m)])
  {
    assert [Format(accepts, m)][1..] == [];
    var here := if accepts(s) then [] else [Issue(path, m)];
    assert here + [] == here;
  }

  /**
   * A string with a length window (after trimming, if `trim` comes first):
   * accepted exactly inside the window, parsed as the (trimmed) value, and
   * refused with the message of the bound it breaks.
   */
  lemma BoundedString(path: seq<string>, s: string, trim: bool, min: nat, a: string, max: nat, b: string)
    requires min <= max
    ensures var t := if trim then Text.Trim(s) else s;
      var rules := (if trim then [TrimRule] else []) + [MinLength(min, a), MaxLength(max, b)];
      var r := CheckString(path, Some(JStr(s)), rules);
      && (r.Success? <==> min <= |t| <= max)
      && (r.Success? ==> r.value == t)
      && (|t| < min ==> r == Failure([Issue(path, a)]))
      && (|t| > max ==> r == Failure([Issue(path, b)]))
  {
    var t := if trim then Text.Trim(s) else s;
    var window := [MinLength(min, a), MaxLength(max, b)];
    if trim {
      TrimFirst(path, s, window);
    } else {
      assert [] + window == window;
    }
    LengthWindow(path, t, min, a, max, b);
    assert |t| < min ==> ([Issue(path, a)] + (if |t| > max then [Issue(path, b)] else [])) == [Issue(path, a)];
    assert |t| > max ==> ((if |t| < min then [Issue(path, a)] else []) + [Issue(path, b)]) == [Issue(path, b)];
  }

  /** An optional string with only a maximum length (after trimming, if `trim` comes first). */
  lemma BoundedOptional(path: seq<string>, v: Option<Json>, trim: bool, max: nat, b: string)
    ensures var rules := (if trim then [TrimRule] else []) + [MaxLength(max, b)];
      var r := OptionalString(path, v, rules);
      && (v.None? ==> r == Success(None))
      && (v.Some? && !v.value.JStr? ==> r == Failure([Issue(path, InvalidType("string", v))]))
      && (v.Some? && v.value.JStr? ==>
            var t := if trim then Text.Trim(v.value.s) else v.value.s;
            && (r.Success? <==> |t| <= max)
            && (r.Success? ==> r.value == Some(t))
            && (r.Failure? ==> r.error == [Issue(path, b)]))
  {
    if v.Some? && v.value.JStr? {
      var s := v.value.s;
      var t := if trim then Text.Trim(s) else s;
      if trim {
        TrimFirst(path, s, [MaxLength(max, b)]);
      } else {
        assert [] + [MaxLength(max, b)] == [MaxLength(max, b)];
      }
      MaxOnly(path, t, max, b);
    }
  }

  /** The parsed value and whether issues arise do not depend on the path they are reported under. */
  lemma {:induction false} PathIrrelevant(p1: seq<string>, p2: seq<string>, s: string, rules: seq<StringRule>)
    ensures ApplyRules(p1, s, rules).0 == ApplyRules(p2, s, rules).0
    ensures Messages(ApplyRules(p1, s, rules).1) == Messages(ApplyRules(p2, s, rules).1)
    decreases |rules|
  {
    if |rules| > 0 {
      var s' := if rules[0].TrimRule? then Text.Trim(s) else s;
      PathIrrelevant(p1, p2, s', rules[1..]);
      var h1 := ApplyRules(p1, s, [rules[0]]).1;
      var h2 := ApplyRules(p2, s, [rules[0]]).1;
      var here1 :=
        match rules[0]
        case TrimRule => []
        case MinLength(min, message) => if |s| < min then [Issue(p1, message)] else []
        case MaxLength(max, message) => if |s| > max then [Issue(p1, message)] else []
        case Format(accepts, message) => if accepts(s) then [] else [Issue(p1, message)];
      var here2 :=
        match rules[0]
        case TrimRule => []
        case MinLength(min, message) => if |s| < min then [Issue(p2, message)] else []
        case MaxLength(max, message) => if |s| > max then [Issue(p2, message)] else []
        case Format(accepts, message) => if accepts(s) then [] else [Issue(p2, message)];
      assert ApplyRules(p1, s, rules).1 == here1 + ApplyRules(p1, s', rules[1..]).1;
      assert ApplyRules(p2, s, rules).1 == here2 + ApplyRules(p2, s', rules[1..]).1;
      MessagesAppend(here1, ApplyRules(p1, s', rules[1..]).1);
      MessagesAppend(here2, ApplyRules(p2, s', rules[1..]).1);
      assert Messages(here1) == Messages(here2);
    }
  }

  /** The same rules accept the same strings, with the same value, under any path. */
  lemma CheckPathIrrelevant(p1: seq<string>, p2: seq<string>, v: Option<Json>, rules: seq<StringRule>)
    ensures CheckString(p1, v, rules).Success? <==> CheckString(p2, v, rules).Success?
    ensures CheckString(p1, v, rules).Success? ==> CheckString(p1, v, rules).value == CheckString(p2, v, rules).value
  {
    if v.Some? && v.value.JStr? {
      PathIrrelevant(p1, p2, v.value.s, rules);
      var i1 := ApplyRules(p1, v.value.s, rules).1;
      var i2 := ApplyRules(p2, v.value.s, rules).1;
      assert |Messages(i1)| == |i1| && |Messages(i2)| == |i2|;
    }
  }
}
