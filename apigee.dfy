/**
 * The Apigee account provider: its descriptor, the options it hands to
 * apigeetool, the proxy URI and the volos-proxy deployment. apigeetool itself
 * is an oracle: `ToolReply` is what its deployProxy callback received.
 */
module Apigee {
  import opened Wrappers
  import opened Js
  import opened Cli
  import opened Providers

  const Name := "apigee"
  const SignupUri := "https://accounts.apigee.com/"
  const ProxyApi := "volos-proxy"
  const ProxyBasePath := "/volos-proxy"

  const Fields: seq<Question> := [
    Field("organization", "Organization?"),
    Field("username", "User Id?"),
    Question("password", "Password?", Password, Undefined),
    Field("environment", "Environment?")
  ]

  const Descriptor := Provider(Name, Some(SignupUri), Fields, {DeployFn, UndeployFn, DeploymentsFn, DeployVolosProxyFn})

  /** The account's four fields, in the order the options list them. */
  const AccountFields := ["organization", "environment", "username", "password"]

  /** The keys of the options object, in order. */
  const OptionKeys := ["organization", "environment", "username", "password", "debug", "verbose"]

  /** The options object literal of buildOpts, filled with the given values. */
  function OptionsOf(organization: Value, environment: Value, username: Value, password: Value, debug: bool): Object {
    [ Member("organization", organization),
      Member("environment", environment),
      Member("username", username),
      Member("password", password),
      Member("debug", Bool(debug)),
      Member("verbose", Bool(debug)) ]
  }

  /** The options taken from the account and the debug setting. */
  function AccountOpts(account: Object, debug: bool): Object {
    OptionsOf(Get(account, "organization"), Get(account, "environment"), Get(account, "username"),
              Get(account, "password"), debug)
  }

  lemma OptionKeysDistinct()
    ensures forall i, j :: 0 <= j < i < 6 ==> OptionKeys[j] != OptionKeys[i]
  {
    forall i, j | 0 <= j < i < 6 ensures OptionKeys[j] != OptionKeys[i] {
      assert OptionKeys[j][0] != OptionKeys[i][0];
    }
  }

  lemma OptionsOfKeys(organization: Value, environment: Value, username: Value, password: Value, debug: bool)
    ensures |OptionsOf(organization, environment, username, password, debug)| == 6
    ensures forall i :: 0 <= i < 6 ==> OptionsOf(organization, environment, username, password, debug)[i].key == OptionKeys[i]
  {
  }

  lemma AccountOptsKeys(account: Object, debug: bool)
    ensures |AccountOpts(account, debug)| == 6
    ensures forall i :: 0 <= i < 6 ==> AccountOpts(account, debug)[i].key == OptionKeys[i]
    ensures forall i, j :: 0 <= j < i < 6 ==> AccountOpts(account, debug)[j].key != AccountOpts(account, debug)[i].key
  {
    OptionsOfKeys(Get(account, "organization"), Get(account, "environment"), Get(account, "username"),
                  Get(account, "password"), debug);
    OptionKeysDistinct();
  }

  /** `buildOpts(account, others)`: the account options, then `others` assigned over them. */
  function BuildOpts(account: Object, others: Option<Object>, debug: bool): (opts: Object)
    ensures |opts| >= 6 && forall i :: 0 <= i < 6 ==> opts[i].key == OptionKeys[i]
    ensures forall k :: HasKey(opts, k) <==> k in OptionKeys || (others.Some? && HasKey(others.value, k))
  {
    var base := AccountOpts(account, debug);
    AccountOptsKeys(account, debug);
    assert forall k :: HasKey(base, k) <==> k in OptionKeys by {
      forall k ensures HasKey(base, k) <==> k in OptionKeys {
        if HasKey(base, k) {
          var i :| 0 <= i < 6 && Keys(base)[i] == k;
          assert OptionKeys[i] == k;
        }
        if k in OptionKeys {
          var i :| 0 <= i < 6 && OptionKeys[i] == k;
          assert Keys(base)[i] == k;
        }
      }
    }
    if others.Some? then
      ExtendKeysPrefix(base, others.value);
      forall k ensures HasKey(Extend(base, others.value), k) <==> k in OptionKeys || HasKey(others.value, k) {
        ExtendHasKey(base, others.value, k);
      }
      Extend(base, others.value)
    else base
  }

  /** In an object keyed like the options, each option key reads its own member. */
  lemma GetOptionKey(o: Object, i: nat)
    requires i < 6 && |o| == 6 && forall j :: 0 <= j < 6 ==> o[j].key == OptionKeys[j]
    ensures Get(o, OptionKeys[i]) == o[i].val
  {
    OptionKeysDistinct();
    GetAt(o, i);
  }

  lemma OptionsOfGet(organization: Value, environment: Value, username: Value, password: Value, debug: bool)
    ensures var o := OptionsOf(organization, environment, username, password, debug);
      Get(o, "organization") == organization && Get(o, "environment") == environment
      && Get(o, "username") == username && Get(o, "password") == password
      && Get(o, "debug") == Bool(debug) && Get(o, "verbose") == Bool(debug)
  {
    var o := OptionsOf(organization, environment, username, password, debug);
    OptionsOfKeys(organization, environment, username, password, debug);
    GetOptionKey(o, 0);
    GetOptionKey(o, 1);
    GetOptionKey(o, 2);
    GetOptionKey(o, 3);
    GetOptionKey(o, 4);
    GetOptionKey(o, 5);
  }

  lemma AccountOptsGet(account: Object, debug: bool)
    ensures forall k :: k in AccountFields ==> Get(AccountOpts(account, debug), k) == Get(account, k)
    ensures Get(AccountOpts(account, debug), "debug") == Bool(debug)
    ensures Get(AccountOpts(account, debug), "verbose") == Bool(debug)
  {
    var organization, environment := Get(account, "organization"), Get(account, "environment");
    var username, password := Get(account, "username"), Get(account, "password");
    OptionsOfGet(organization, environment, username, password, debug);
    var o := AccountOpts(account, debug);
    forall k | k in AccountFields ensures Get(o, k) == Get(account, k) {
      if k == "organization" {
      } else if k == "environment" {
      } else if k == "username" {
      } else {
        assert k == "password";
      }
    }
  }

  lemma AccountOptsOther(account: Object, debug: bool, k: string)
    requires k !in OptionKeys
    ensures Get(AccountOpts(account, debug), k) == Undefined
  {
    AccountOptsKeys(account, debug);
    GetAbsent(AccountOpts(account, debug), k);
  }

  /** Each option is the account's field (or the debug flag) unless `others` sets it. */
  lemma BuildOptsGet(account: Object, others: Option<Object>, debug: bool, k: string)
    requires others.Some? ==> UniqueKeys(others.value)
    ensures others.Some? && HasKey(others.value, k) ==> Get(BuildOpts(account, others, debug), k) == Get(others.value, k)
    ensures (others.None? || !HasKey(others.value, k)) && k in AccountFields ==>
      Get(BuildOpts(account, others, debug), k) == Get(account, k)
    ensures (others.None? || !HasKey(others.value, k)) && (k == "debug" || k == "verbose") ==>
      Get(BuildOpts(account, others, debug), k) == Bool(debug)
    ensures (others.None? || !HasKey(others.value, k)) && k !in OptionKeys ==>
      Get(BuildOpts(account, others, debug), k) == Undefined
  {
    var base := AccountOpts(account, debug);
    AccountOptsGet(account, debug);
    if k !in OptionKeys {
      AccountOptsOther(account, debug, k);
    }
    if others.Some? {
      assert BuildOpts(account, others, debug) == Extend(base, others.value);
      ExtendGet(base, others.value, k);
    } else {
      assert BuildOpts(account, others, debug) == base;
    }
  }

  /** The options deployVolosProxy adds for apigeetool. */
  function ProxyOptions(volosProxyDir: string): Object {
    [ Member("api", Str(ProxyApi)),
      Member("directory", Str(volosProxyDir)),
      Member("base-path", Str(ProxyBasePath)),
      Member("import-only", Bool(false)) ]
  }

  // ---------------------------------------------------------------------
  // proxyURI

  /** The characters `querystring.escape` leaves as they are. */
  predicate Unreserved(c: char) {
    ('a' <= c <= 'z') || ('A' <= c <= 'Z') || ('0' <= c <= '9')
    || c == '-' || c == '_' || c == '.' || c == '!' || c == '~' || c == '*' || c == '\'' || c == '(' || c == ')'
  }

  predicate HexDigit(c: char) {
    ('0' <= c <= '9') || ('A' <= c <= 'F')
  }

  /** The characters a host label can hold after escaping; none of them is `/`, `:`, `@`, `?` or `#`. */
  predicate HostChar(c: char) {
    Unreserved(c) || c == '%' || HexDigit(c)
  }

  /** The UTF-8 bytes of a character. */
  function Utf8(c: char): (bytes: seq<nat>)
    ensures 1 <= |bytes| <= 4 && forall i :: 0 <= i < |bytes| ==> bytes[i] < 256
  {
    var n := c as int;
    if n < 0x80 then [n]
    else if n < 0x800 then [0xC0 + n / 64, 0x80 + n % 64]
    else if n < 0x10000 then [0xE0 + n / 4096, 0x80 + (n / 64) % 64, 0x80 + n % 64]
    else [0xF0 + n / 262144, 0x80 + (n / 4096) % 64, 0x80 + (n / 64) % 64, 0x80 + n % 64]
  }

  /** `%XX` for each byte, with upper-case hex digits. */
  function PercentBytes(bytes: seq<nat>): (s: string)
    requires forall i :: 0 <= i < |bytes| ==> bytes[i] < 256
    ensures |s| == 3 * |bytes|
    ensures forall i :: 0 <= i < |s| ==> s[i] == '%' || HexDigit(s[i])
  {
    if bytes == [] then ""
    else
      var b := bytes[0];
      var head := ['%', "0123456789ABCDEF"[b / 16], "0123456789ABCDEF"[b % 16]];
      assert forall i :: 0 <= i < 3 ==> head[i] == '%' || HexDigit(head[i]);
      head + PercentBytes(bytes[1..])
  }

  /** `querystring.escape(s)`: percent-encoding of the UTF-8 bytes of every reserved character. */
  function QsEscape(s: string): (r: string)
    ensures forall i :: 0 <= i < |r| ==> HostChar(r[i])
  {
    if s == [] then ""
    else
      var head := if Unreserved(s[0]) then [s[0]] else PercentBytes(Utf8(s[0]));
      head + QsEscape(s[1..])
  }

  /** Text made only of unreserved characters comes through unchanged. */
  lemma {:induction false} QsEscapeUnreserved(s: string)
    requires forall i :: 0 <= i < |s| ==> Unreserved(s[i])
    ensures QsEscape(s) == s
    decreases |s|
  {
    if s != [] {
      QsEscapeUnreserved(s[1..]);
    }
  }

  /** The host label: escaped organization, `-`, escaped environment. */
  function ProxyHost(account: Object): string {
    QsEscape(ToJsString(Get(account, "organization"))) + "-" + QsEscape(ToJsString(Get(account, "environment")))
  }

  /** `proxyURI(account)`: the volos proxy's address in the account's organization and environment. */
  function ProxyUri(account: Object): string {
    "https://" + ProxyHost(account) + ".apigee.net" + ProxyBasePath
  }

  lemma ProxyHostChars(account: Object)
    ensures forall i :: 0 <= i < |ProxyHost(account)| ==> HostChar(ProxyHost(account)[i])
  {
    var org := QsEscape(ToJsString(Get(account, "organization")));
    var env := QsEscape(ToJsString(Get(account, "environment")));
    var host := ProxyHost(account);
    forall i | 0 <= i < |host| ensures HostChar(host[i]) {
      if i < |org| {
        assert host[i] == org[i];
      } else if i > |org| {
        assert host[i] == env[i - |org| - 1];
      }
    }
  }

  /**
   * The URI is `https://`, a host label and `.apigee.net/volos-proxy`, and
   * the label is made of escaped characters only, whatever the account says.
   */
  lemma ProxyUriLayout(account: Object)
    ensures var uri := ProxyUri(account);
      |uri| >= 32 && uri[..8] == "https://" && uri[|uri| - 23..] == ".apigee.net/volos-proxy"
      && forall i :: 8 <= i < |uri| - 23 ==> HostChar(uri[i])
  {
    ProxyHostChars(account);
    HostLayout(ProxyHost(account));
  }

  lemma HostLayout(host: string)
    requires |host| >= 1
    requires forall i :: 0 <= i < |host| ==> HostChar(host[i])
    ensures var uri := "https://" + host + ".apigee.net" + ProxyBasePath;
      |uri| >= 32 && uri[..8] == "https://" && uri[|uri| - 23..] == ".apigee.net/volos-proxy"
      && forall i :: 8 <= i < |uri| - 23 ==> HostChar(uri[i])
  {
    var suffix := ".apigee.net" + ProxyBasePath;
    assert suffix == ".apigee.net/volos-proxy";
    assert "https://" + host + ".apigee.net" + ProxyBasePath == "https://" + host + suffix;
    Framed("https://", host, suffix);
  }

  /** The parts of `a + b + c` sit where they were put. */
  lemma Framed(a: string, b: string, c: string)
    ensures var s := a + b + c;
      s[..|a|] == a && s[|s| - |c|..] == c && forall i :: |a| <= i < |s| - |c| ==> s[i] == b[i - |a|]
  {
    var s := a + b + c;
    assert s[..|a|] == a by {
      forall i | 0 <= i < |a| ensures s[i] == a[i] {
        assert s[i] == (a + b)[i];
      }
    }
    assert s[|s| - |c|..] == c by {
      forall i | 0 <= i < |c| ensures s[|s| - |c| + i] == c[i] {
      }
    }
    forall i | |a| <= i < |s| - |c| ensures s[i] == b[i - |a|] {
      assert s[i] == (a + b)[i];
    }
  }

  /** The URI depends on the account only through its organization and environment. */
  lemma ProxyUriDependsOnOrgAndEnv(a: Object, b: Object)
    requires Get(a, "organization") == Get(b, "organization") && Get(a, "environment") == Get(b, "environment")
    ensures ProxyUri(a) == ProxyUri(b)
  {
  }

  // ---------------------------------------------------------------------
  // deployVolosProxy

  /** What apigeetool's deployProxy passed to its callback. */
  datatype ToolReply = ToolFailed(error: string) | ToolReplied(reply: Value)

  /** `===`: objects and arrays are never identical to a separately parsed value. */
  predicate StrictEquals(a: Value, b: Value) {
    !IsObject(a) && a == b
  }

  /** The elements the `for` loop visits: `deployments[0 .. deployments.length - 1]`. */
  function Elements(v: Value): seq<Value> {
    match v
    case Arr(items) => items
    case Str(s) => seq(|s|, i requires 0 <= i < |s| => Str([s[i]]))
    case Obj(members) =>
      (match Get(members, "length")
       case Num(n) => if n > 0 then seq(n, i requires 0 <= i < n => Get(members, NatToString(i))) else []
       case _ => [])
    case _ => []
  }

  /** How the search over the deployments ends. */
  datatype Scan = Match(index: nat) | Crash(at: nat) | Exhausted
  {
    /** The position the search stopped at; `end` when it ran through. */
    function StopsAt(end: nat): nat {
      match this
      case Match(i) => i
      case Crash(i) => i
      case Exhausted => end
    }
  }

  /** A deployment the search steps over: not null and in another environment. */
  predicate StepsOver(deployment: Value, environment: Value) {
    !IsNullish(deployment) && !StrictEquals(Prop(deployment, "environment"), environment)
  }

  /** The search from position `from`: the first deployment in the environment, or a null one that crashes it. */
  function ScanFrom(items: seq<Value>, environment: Value, from: nat): (r: Scan)
    requires from <= |items|
    ensures r.Match? ==>
      from <= r.index < |items| && !IsNullish(items[r.index]) && StrictEquals(Prop(items[r.index], "environment"), environment)
    ensures r.Crash? ==> from <= r.at < |items| && IsNullish(items[r.at])
    ensures forall j :: from <= j < |items| && j < r.StopsAt(|items|) ==> StepsOver(items[j], environment)
    decreases |items| - from
  {
    if from == |items| then Exhausted
    else if IsNullish(items[from]) then Crash(from)
    else if StrictEquals(Prop(items[from], "environment"), environment) then Match(from)
    else ScanFrom(items, environment, from + 1)
  }

  /**
   * What deployProxy's callback does with a reply: answers with the first
   * deployment in the environment or else with the whole reply; crashes when
   * the reply, its deployments or a deployment before the match is null.
   */
  method AnswerReply(reply: Value, environment: Value) returns (calls: seq<Completion>, crashed: bool)
    ensures var deployments := Prop(reply, "deployments");
      crashed <==> IsNullish(reply) || IsNullish(deployments) || ScanFrom(Elements(deployments), environment, 0).Crash?
    ensures crashed ==> calls == []
    ensures !crashed ==>
      var items := Elements(Prop(reply, "deployments"));
      var scan := ScanFrom(items, environment, 0);
      calls == [Completion(None, if scan.Match? then items[scan.index] else reply)]
  {
    if IsNullish(reply) {
      return [], true;
    }
    var deployments := Prop(reply, "deployments");
    if IsNullish(deployments) {
      return [], true;
    }
    var items := Elements(deployments);
    var scan := FindDeployment(items, environment);
    match scan {
      case Crash(_) => return [], true;
      case Match(i) => return [Completion(None, items[i])], false;
      case Exhausted => return [Completion(None, reply)], false;
    }
  }

  /** The callback's `for` loop over the deployments: stops at the first one in the environment, or crashes on a null one. */
  method FindDeployment(items: seq<Value>, environment: Value) returns (scan: Scan)
    ensures scan == ScanFrom(items, environment, 0)
  {
    var i := 0;
    while i < |items|
      invariant 0 <= i <= |items|
      invariant ScanFrom(items, environment, i) == ScanFrom(items, environment, 0)
    {
      var deployment := items[i];
      if IsNullish(deployment) {
        return Crash(i);
      }
      if StrictEquals(Prop(deployment, "environment"), environment) {
        return Match(i);
      }
      i := i + 1;
    }
    return Exhausted;
  }

  /**
   * `deployVolosProxy(account, options, cb)`: deploys the proxy with the
   * account's options and answers from the reply. A tool error is passed on,
   * and then `reply.deployments` crashes.
   */
  method DeployVolosProxy(account: Object, debug: bool, volosProxyDir: string, tool: ToolReply)
    returns (opts: Object, calls: seq<Completion>, crashed: bool)
    ensures opts == BuildOpts(account, Some(ProxyOptions(volosProxyDir)), debug)
    ensures Get(opts, "environment") == Get(account, "environment")
    ensures tool.ToolFailed? ==> calls == [Completion(Some(tool.error), Undefined)] && crashed
    ensures tool.ToolReplied? ==>
      var deployments := Prop(tool.reply, "deployments");
      (crashed <==> IsNullish(tool.reply) || IsNullish(deployments)
                    || ScanFrom(Elements(deployments), Get(account, "environment"), 0).Crash?)
    ensures tool.ToolReplied? && !crashed ==>
      var items := Elements(Prop(tool.reply, "deployments"));
      var scan := ScanFrom(items, Get(account, "environment"), 0);
      calls == [Completion(None, if scan.Match? then items[scan.index] else tool.reply)]
  {
    opts := BuildOpts(account, Some(ProxyOptions(volosProxyDir)), debug);
    ProxyOptsEnvironment(account, debug, volosProxyDir);
    var environment := Get(opts, "environment");
    match tool
    case ToolFailed(e) =>
      var more;
      more, crashed := AnswerReply(Undefined, environment);
      calls := [Completion(Some(e), Undefined)] + more;
    case ToolReplied(reply) =>
      calls, crashed := AnswerReply(reply, environment);
  }

  /** The proxy options leave the account's environment in place: the search looks for the account's own. */
  lemma ProxyOptsEnvironment(account: Object, debug: bool, volosProxyDir: string)
    ensures Get(BuildOpts(account, Some(ProxyOptions(volosProxyDir)), debug), "environment") == Get(account, "environment")
  {
    var extra := ProxyOptions(volosProxyDir);
    assert forall i :: 0 <= i < |extra| ==> extra[i].key[0] != 'e';
    assert UniqueKeys(extra) by {
      forall i, j | 0 <= i < j < |extra| ensures extra[i].key != extra[j].key {
        assert extra[i].key[0] != extra[j].key[0];
      }
    }
    assert !HasKey(extra, "environment");
    BuildOptsGet(account, Some(extra), debug, "environment");
  }

  /** A reply listing a deployment in the account's environment answers with that deployment. */
  lemma DeployedInEnvironment(account: Object, deployments: seq<Value>, k: nat)
    requires k < |deployments| && !IsObject(Get(account, "environment"))
    requires deployments[k].Obj? && Get(deployments[k].members, "environment") == Get(account, "environment")
    requires forall j :: 0 <= j < k ==> deployments[j].Obj? && Get(deployments[j].members, "environment") != Get(account, "environment")
    ensures ScanFrom(deployments, Get(account, "environment"), 0) == Match(k)
  {
  }
}
