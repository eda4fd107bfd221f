/**
 * The JavaScript values the CLI passes around: JSON-like data, objects whose
 * members keep their property order, JavaScript truthiness, property access,
 * lodash's `_.extend`, string conversion and `String.prototype.indexOf`.
 */
module Js {
  import opened Wrappers

  datatype Value =
    | Undefined
    | Null
    | Bool(b: bool)
    | Num(n: int)
    | Str(s: string)
    | Arr(items: seq<Value>)
    | Obj(members: seq<Member>)

  datatype Member = Member(key: string, val: Value)

  /** A plain object: its members in property order. */
  type Object = seq<Member>

  /** `!!v` in JavaScript. */
  predicate Truthy(v: Value) {
    match v
    case Undefined => false
    case Null => false
    case Bool(b) => b
    case Num(n) => n != 0
    case Str(s) => s != ""
    case _ => true
  }

  /** lodash's `_.isObject`: arrays and objects, not primitives or null. */
  predicate IsObject(v: Value) {
    v.Arr? || v.Obj?
  }

  /** `v === null || v === undefined`. */
  predicate IsNullish(v: Value) {
    v.Undefined? || v.Null?
  }

  // ---------------------------------------------------------------------
  // Optional string arguments: None is `undefined`.

  /** `!!s` for an optional string. */
  predicate Named(s: Option<string>) {
    s.Some? && s.value != ""
  }

  /** `a || b`: the first operand when truthy, else the second as it is. */
  function Or(a: Option<string>, b: Option<string>): (r: Option<string>)
    ensures Named(a) ==> r == a
    ensures !Named(a) ==> r == b
  {
    if Named(a) then a else b
  }

  /** The property key JavaScript uses for an optional string (`obj[undefined]` reads key "undefined"). */
  function KeyOf(s: Option<string>): string {
    if s.Some? then s.value else "undefined"
  }

  /** The value stored when an optional string is assigned to a property. */
  function NameValue(s: Option<string>): Value {
    if s.Some? then Str(s.value) else Undefined
  }

  // ---------------------------------------------------------------------
  // Objects as ordered member lists.

  function Keys(o: Object): (ks: seq<string>)
    ensures |ks| == |o|
    ensures forall i :: 0 <= i < |o| ==> ks[i] == o[i].key
  {
    if o == [] then [] else [o[0].key] + Keys(o[1..])
  }

  predicate HasKey(o: Object, k: string) {
    k in Keys(o)
  }

  /** What JSON.parse and object literals produce: no key twice. */
  predicate UniqueKeys(o: Object) {
    forall i, j :: 0 <= i < j < |o| ==> o[i].key != o[j].key
  }

  /** `o[k]`, `undefined` when the key is absent. */
  function Get(o: Object, k: string): (v: Value)
    ensures !HasKey(o, k) ==> v == Undefined
  {
    if o == [] then Undefined
    else if o[0].key == k then o[0].val
    else Get(o[1..], k)
  }

  /** The first member with a key is the one `o[k]` reads. */
  lemma {:induction false} GetAt(o: Object, i: nat)
    requires i < |o| && forall j :: 0 <= j < i ==> o[j].key != o[i].key
    ensures Get(o, o[i].key) == o[i].val
    decreases i
  {
    if i > 0 {
      GetAt(o[1..], i - 1);
    }
  }

  lemma {:induction false} GetAbsent(o: Object, k: string)
    requires forall i :: 0 <= i < |o| ==> o[i].key != k
    ensures Get(o, k) == Undefined
    decreases |o|
  {
    if o != [] {
      GetAbsent(o[1..], k);
    }
  }

  /** Dropping the last member does not change the lookup of another key. */
  lemma {:induction false} GetPrefix(o: Object, k: string)
    requires o != [] && o[|o| - 1].key != k
    ensures Get(o, k) == Get(o[..|o| - 1], k)
    decreases |o|
  {
    if |o| > 1 && o[0].key != k {
      assert o[1..][..|o[1..]| - 1] == o[..|o| - 1][1..];
      GetPrefix(o[1..], k);
    }
  }

  /** `o[k] = v`: an existing member keeps its position, a new one is appended. */
  function Set(o: Object, k: string, v: Value): Object {
    if o == [] then [Member(k, v)]
    else if o[0].key == k then [Member(k, v)] + o[1..]
    else [o[0]] + Set(o[1..], k, v)
  }

  /** After `o[k] = v`, k reads v and every other key reads what it read before. */
  lemma {:induction false} SetGet(o: Object, k: string, v: Value, k': string)
    ensures Get(Set(o, k, v), k') == if k' == k then v else Get(o, k')
    decreases |o|
  {
    if o != [] && o[0].key != k {
      SetGet(o[1..], k, v, k');
      assert ([o[0]] + Set(o[1..], k, v))[1..] == Set(o[1..], k, v);
    } else if o != [] {
      assert ([Member(k, v)] + o[1..])[1..] == o[1..];
    }
  }

  /** Assignment keeps the key order; a new key goes last. */
  lemma {:induction false} SetKeys(o: Object, k: string, v: Value)
    ensures Keys(Set(o, k, v)) == if HasKey(o, k) then Keys(o) else Keys(o) + [k]
    decreases |o|
  {
    if o != [] {
      assert Keys(o) == [o[0].key] + Keys(o[1..]);
      if o[0].key == k {
        var r := [Member(k, v)] + o[1..];
        assert r[1..] == o[1..];
        assert Keys(r) == [k] + Keys(o[1..]);
      } else {
        SetKeys(o[1..], k, v);
        var r := [o[0]] + Set(o[1..], k, v);
        assert r[1..] == Set(o[1..], k, v);
        assert Keys(r) == [o[0].key] + Keys(Set(o[1..], k, v));
        assert HasKey(o, k) == HasKey(o[1..], k);
      }
    }
  }

  /** Assigning a key the object does not have appends it. */
  lemma {:induction false} SetNew(o: Object, k: string, v: Value)
    requires forall i :: 0 <= i < |o| ==> o[i].key != k
    ensures Set(o, k, v) == o + [Member(k, v)]
    decreases |o|
  {
    if o != [] {
      SetNew(o[1..], k, v);
      assert o == [o[0]] + o[1..];
    }
  }

  lemma SetHasKey(o: Object, k: string, v: Value, k': string)
    ensures HasKey(Set(o, k, v), k') <==> HasKey(o, k') || k' == k
  {
    SetKeys(o, k, v);
  }

  /** lodash `_.extend(o, src)`: assigns src's members onto o, in src's order. */
  function Extend(o: Object, src: Object): (r: Object)
    decreases |src|
  {
    if src == [] then o else Extend(Set(o, src[0].key, src[0].val), src[1..])
  }

  /** After `_.extend(o, src)`, src's values win and o's other values are kept. */
  lemma {:induction false} ExtendGet(o: Object, src: Object, k: string)
    requires UniqueKeys(src)
    ensures Get(Extend(o, src), k) == if HasKey(src, k) then Get(src, k) else Get(o, k)
    decreases |src|
  {
    if src != [] {
      var rest := src[1..];
      assert UniqueKeys(rest) by {
        forall i, j | 0 <= i < j < |rest| ensures rest[i].key != rest[j].key {
          assert rest[i] == src[i + 1] && rest[j] == src[j + 1];
        }
      }
      SetGet(o, src[0].key, src[0].val, k);
      ExtendGet(Set(o, src[0].key, src[0].val), rest, k);
      if HasKey(rest, k) {
        var i :| 0 <= i < |rest| && rest[i].key == k;
        assert src[i + 1].key == k;
      }
      if HasKey(src, k) && src[0].key != k {
        var i :| 0 <= i < |src| && src[i].key == k;
        assert rest[i - 1].key == k;
      }
    }
  }

  /** `_.extend` never drops a key: the keys afterwards are o's and src's. */
  lemma {:induction false} ExtendHasKey(o: Object, src: Object, k: string)
    ensures HasKey(Extend(o, src), k) <==> HasKey(o, k) || HasKey(src, k)
    decreases |src|
  {
    if src != [] {
      var rest := src[1..];
      SetHasKey(o, src[0].key, src[0].val, k);
      ExtendHasKey(Set(o, src[0].key, src[0].val), rest, k);
      if HasKey(rest, k) {
        var i :| 0 <= i < |rest| && rest[i].key == k;
        assert src[i + 1].key == k;
      }
      if HasKey(src, k) && src[0].key != k {
        var i :| 0 <= i < |src| && src[i].key == k;
        assert rest[i - 1].key == k;
      }
    }
  }

  /** `_.extend` only appends keys: o's keys stay first, in their order. */
  lemma {:induction false} ExtendKeysPrefix(o: Object, src: Object)
    ensures |Extend(o, src)| >= |o|
    ensures forall i :: 0 <= i < |o| ==> Extend(o, src)[i].key == o[i].key
    decreases |src|
  {
    if src != [] {
      var o' := Set(o, src[0].key, src[0].val);
      SetKeys(o, src[0].key, src[0].val);
      assert |Keys(o')| >= |Keys(o)|;
      forall i | 0 <= i < |o| ensures o'[i].key == o[i].key {
        assert Keys(o')[i] == Keys(o)[i];
      }
      ExtendKeysPrefix(o', src[1..]);
    }
  }

  /** `_.extend` with an object whose keys o already has leaves the key order alone. */
  lemma {:induction false} ExtendKeepsOrder(o: Object, src: Object)
    requires forall i :: 0 <= i < |src| ==> HasKey(o, src[i].key)
    ensures Keys(Extend(o, src)) == Keys(o)
    decreases |src|
  {
    if src != [] {
      var o' := Set(o, src[0].key, src[0].val);
      SetKeys(o, src[0].key, src[0].val);
      assert HasKey(o, src[0].key);
      forall i | 0 <= i < |src[1..]| ensures HasKey(o', src[1..][i].key) {
        assert src[1..][i] == src[i + 1];
      }
      ExtendKeepsOrder(o', src[1..]);
    }
  }

  /** Property access `v.k` on a value that is not null or undefined. */
  function Prop(v: Value, k: string): Value {
    if v.Obj? then Get(v.members, k) else Undefined
  }

  // ---------------------------------------------------------------------
  // String conversion.

  function DigitChar(d: nat): char
    requires d < 10
  {
    "0123456789"[d]
  }

  function NatToString(n: nat): (s: string)
    decreases n
  {
    if n < 10 then [DigitChar(n)] else NatToString(n / 10) + [DigitChar(n % 10)]
  }

  /** `'' + n` for an integer. */
  function IntToString(n: int): string {
    if n < 0 then "-" + NatToString(-n) else NatToString(n)
  }

  /** The decimal value of a string of digits, -1 when it holds anything else. */
  function ParseNat(s: string): (n: int)
    ensures n >= -1
    decreases |s|
  {
    if s == [] then -1
    else
      var d := DigitValue(s[|s| - 1]);
      if d < 0 then -1
      else if |s| == 1 then d
      else
        var hi := ParseNat(s[..|s| - 1]);
        if hi < 0 then -1 else hi * 10 + d
  }

  function DigitValue(c: char): int {
    if '0' <= c <= '9' then c as int - '0' as int else -1
  }

  /** Writing a pid in decimal and reading the digits back gives the pid again. */
  lemma {:induction false} ParseNatToString(n: nat)
    ensures ParseNat(NatToString(n)) == n
    decreases n
  {
    if n >= 10 {
      ParseNatToString(n / 10);
      var s := NatToString(n);
      assert s[..|s| - 1] == NatToString(n / 10);
    }
  }

  /** `String(v)` / `'' + v`. */
  function ToJsString(v: Value): string {
    match v
    case Undefined => "undefined"
    case Null => "null"
    case Bool(b) => if b then "true" else "false"
    case Num(n) => IntToString(n)
    case Str(s) => s
    case Arr(items) => JoinItems(items)
    case Obj(_) => "[object Object]"
  }

  /** `Array.prototype.join(',')`, where null and undefined elements print as nothing. */
  function JoinItems(items: seq<Value>): string {
    if items == [] then ""
    else
      var first := if IsNullish(items[0]) then "" else ToJsString(items[0]);
      if |items| == 1 then first else first + "," + JoinItems(items[1..])
  }

  // ---------------------------------------------------------------------
  // String search.

  predicate OccursAt(s: string, pat: string, i: int) {
    0 <= i && i + |pat| <= |s| && s[i..i + |pat|] == pat
  }

  lemma OccursShift(s: string, pat: string, j: int)
    requires 1 <= j && s != []
    ensures OccursAt(s, pat, j) <==> OccursAt(s[1..], pat, j - 1)
  {
    if j + |pat| <= |s| {
      var here, there := s[j..j + |pat|], s[1..][j - 1..j - 1 + |pat|];
      forall t | 0 <= t < |pat| ensures here[t] == there[t] {
        assert here[t] == s[j + t];
        assert there[t] == s[j + t];
      }
      assert here == there;
    }
  }

  /** `s.indexOf(pat)`: the first position of pat in s, or -1. */
  function IndexOf(s: string, pat: string): (r: int)
    ensures r == -1 || OccursAt(s, pat, r)
    ensures r == -1 ==> forall j :: !OccursAt(s, pat, j)
    ensures forall j :: 0 <= j < r ==> !OccursAt(s, pat, j)
    decreases |s|
  {
    if |pat| <= |s| && s[..|pat|] == pat then 0
    else if |pat| > |s| then -1
    else
      var k := IndexOf(s[1..], pat);
      forall j | 1 <= j ensures OccursAt(s, pat, j) <==> OccursAt(s[1..], pat, j - 1) {
        OccursShift(s, pat, j);
      }
      if k == -1 then -1 else k + 1
  }

  predicate Contains(s: string, pat: string) {
    IndexOf(s, pat) != -1
  }
}
