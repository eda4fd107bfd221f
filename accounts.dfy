/**
 * The account store: one JSON document holding every account record by
 * name and the name of the selected account. Each command reads the
 * document afresh, changes the parsed object in place and writes it back
 * whole. account.js and index.js (its older copy) share this model; where
 * they differ the commands take the `Version`.
 *
 * The file's content is a value (what reading and parsing found); the
 * document written back is returned. Prompts, the account chooser, the
 * signup confirmation and the browser's callback are oracle parameters.
 */
module Accounts {
  import opened Wrappers
  import opened Js
  import opened Cli
  import opened Providers
  import opened ProviderRegistry
  import Apigee
  import Amazon

  /** The parsed accounts file: account names in file order, each name's record, and the selected name. */
  datatype Document = Document(order: seq<string>, accounts: map<string, Object>, selected: Option<string>)

  /** A parsed file names each account once, and lists exactly the accounts it holds. */
  ghost predicate WellFormed(d: Document) {
    NoDup(d.order) && forall n :: n in d.accounts <==> n in d.order
  }

  /** What reading the accounts file found. */
  datatype StoredFile = Missing | Unparseable | Json(doc: Document)

  const EmptyDocument := Document([], map[], None)

  /** `readFile()`: any read or parse failure gives `{ accounts: {} }`, with nothing selected. */
  function ReadFile(file: StoredFile): (d: Document)
    ensures file.Json? ==> d == file.doc
    ensures !file.Json? ==> d.order == [] && d.accounts == map[] && d.selected.None?
  {
    if file.Json? then file.doc else EmptyDocument
  }

  /** `accountsData.accounts[key]`. */
  function Lookup(d: Document, key: string): Value {
    if key in d.accounts then Obj(d.accounts[key]) else Undefined
  }

  /** `name || options.account || accountsData.selected`: an empty name falls through like a missing one. */
  function Resolve(name: Option<string>, account: Option<string>, selected: Option<string>): (r: Option<string>)
    ensures Named(name) ==> r == name
    ensures !Named(name) && Named(account) ==> r == account
    ensures !Named(name) && !Named(account) ==> r == selected
  {
    Or(name, Or(account, selected))
  }

  // ---------------------------------------------------------------------
  // The document, changed in place.

  /** `accountsData.accounts[name] = record`: a new name goes last, a known one keeps its place. */
  function PutRecord(d: Document, name: string, record: Object): Document {
    Document(if name in d.accounts then d.order else d.order + [name], d.accounts[name := record], d.selected)
  }

  /** The names other than `x`, in order. */
  function Without(s: seq<string>, x: string): seq<string> {
    if s == [] then [] else (if s[0] == x then [] else [s[0]]) + Without(s[1..], x)
  }

  /** `delete accountsData.accounts[name]`. */
  function RemoveRecord(d: Document, name: string): Document {
    Document(Without(d.order, name), d.accounts - {name}, d.selected)
  }

  /** `writeAccount(name, record, accountsData)`: stores the record, and selects it when nothing is selected. */
  function WrittenAccount(d: Document, name: Option<string>, record: Object): Document {
    var stored := PutRecord(d, KeyOf(name), record);
    if Named(d.selected) then stored else stored.(selected := name)
  }

  /** What `del` leaves: the record gone, and the selection cleared when it named that account. */
  function Deleted(d: Document, name: string): Document {
    var removed := RemoveRecord(d, name);
    if d.selected == Some(name) then removed.(selected := None) else removed
  }

  /** The parsed accounts object, which the commands change in place before writing it back. */
  class AccountsData {
    var order: seq<string>
    var accounts: map<string, Object>
    var selected: Option<string>

    function Snapshot(): Document
      reads this
    {
      Document(order, accounts, selected)
    }

    constructor(d: Document)
      ensures Snapshot() == d
    {
      order, accounts, selected := d.order, d.accounts, d.selected;
    }

    method Put(name: string, record: Object)
      modifies this
      ensures Snapshot() == PutRecord(old(Snapshot()), name, record)
    {
      if name !in accounts {
        order := order + [name];
      }
      accounts := accounts[name := record];
    }

    method Remove(name: string)
      modifies this
      ensures Snapshot() == RemoveRecord(old(Snapshot()), name)
    {
      order := Without(order, name);
      accounts := accounts - {name};
    }

    /** `accountsData.selected = name`, or `delete accountsData.selected` for None. */
    method Select(name: Option<string>)
      modifies this
      ensures Snapshot() == old(Snapshot()).(selected := name)
    {
      selected := name;
    }

    /** `writeAccount(name, record, accountsData)` up to writing the file. */
    method WriteAccount(name: Option<string>, record: Object)
      modifies this
      ensures Snapshot() == WrittenAccount(old(Snapshot()), name, record)
    {
      Put(KeyOf(name), record);
      if !Named(selected) {
        selected := name;
      }
    }
  }

  // ---------------------------------------------------------------------
  // Facts about the document operations.

  lemma {:induction false} WithoutMembers(s: seq<string>, x: string)
    ensures forall y :: y in Without(s, x) <==> y in s && y != x
    decreases |s|
  {
    if s != [] {
      WithoutMembers(s[1..], x);
      assert s == [s[0]] + s[1..];
    }
  }

  lemma {:induction false} WithoutNoDup(s: seq<string>, x: string)
    requires NoDup(s)
    ensures NoDup(Without(s, x))
    decreases |s|
  {
    if s != [] {
      WithoutNoDup(s[1..], x);
      WithoutMembers(s[1..], x);
      var rest := Without(s[1..], x);
      if s[0] != x {
        assert s[0] !in s[1..];
        var w := [s[0]] + rest;
        forall i, j | 0 <= i < j < |w| ensures w[i] != w[j] {
          if i == 0 {
            assert w[j] == rest[j - 1];
          } else {
            assert w[i] == rest[i - 1] && w[j] == rest[j - 1];
          }
        }
      }
    }
  }

  /** Storing a record keeps the document well formed and changes only that record. */
  lemma PutRecordFacts(d: Document, name: string, record: Object)
    requires WellFormed(d)
    ensures WellFormed(PutRecord(d, name, record))
    ensures forall k :: Lookup(PutRecord(d, name, record), k) == if k == name then Obj(record) else Lookup(d, k)
    ensures PutRecord(d, name, record).selected == d.selected
  {
    var p := PutRecord(d, name, record);
    if name !in d.accounts {
      assert name !in d.order;
      forall i, j | 0 <= i < j < |p.order| ensures p.order[i] != p.order[j] {
        if j == |d.order| {
          assert p.order[i] == d.order[i];
        }
      }
    }
  }

  /**
   * `del`: the record is gone, every other record stays, the selection is
   * cleared exactly when it named the deleted account, and the document
   * stays well formed.
   */
  lemma DeletedFacts(d: Document, name: string)
    requires WellFormed(d)
    ensures WellFormed(Deleted(d, name))
    ensures name !in Deleted(d, name).accounts
    ensures forall k :: k != name ==> Lookup(Deleted(d, name), k) == Lookup(d, k)
    ensures Deleted(d, name).selected == if d.selected == Some(name) then None else d.selected
  {
    WithoutMembers(d.order, name);
    WithoutNoDup(d.order, name);
  }

  /**
   * `writeAccount`: the record is stored under the name, the other records
   * stay, and the selection moves to the name only when none was set.
   */
  lemma WrittenAccountFacts(d: Document, name: Option<string>, record: Object)
    requires WellFormed(d)
    ensures WellFormed(WrittenAccount(d, name, record))
    ensures forall k :: Lookup(WrittenAccount(d, name, record), k) == if k == KeyOf(name) then Obj(record) else Lookup(d, k)
    ensures WrittenAccount(d, name, record).selected == if Named(d.selected) then d.selected else name
  {
    PutRecordFacts(d, KeyOf(name), record);
  }

  // ---------------------------------------------------------------------
  // Lookups: list, show, getSelected.

  /** `list(options, cb)`: every account name in file order; account.js marks the selected one with " +". */
  function List(version: Version, file: StoredFile): (names: seq<string>)
    ensures |names| == |ReadFile(file).order|
  {
    var d := ReadFile(file);
    seq(|d.order|, i requires 0 <= i < |d.order| =>
      if version == Current && d.selected == Some(d.order[i]) then d.order[i] + " +" else d.order[i])
  }

  /**
   * account.js changes exactly the entry of the selected account, by adding
   * " +"; index.js lists the names as they are.
   */
  lemma ListMarksSelected(version: Version, file: StoredFile)
    requires file.Json? ==> WellFormed(file.doc)
    ensures var d := ReadFile(file);
      forall i :: 0 <= i < |d.order| ==>
        (List(version, file)[i] != d.order[i] <==> version == Current && d.selected == Some(d.order[i]))
        && (List(version, file)[i] != d.order[i] ==> List(version, file)[i] == d.order[i] + " +")
    ensures var d := ReadFile(file);
      forall i, j :: 0 <= i < j < |d.order| ==> List(version, file)[i] == d.order[i] || List(version, file)[j] == d.order[j]
    ensures version == Legacy ==> List(version, file) == ReadFile(file).order
  {
    var d := ReadFile(file);
    var names := List(version, file);
    forall i | 0 <= i < |d.order| ensures names[i] != d.order[i] ==> names[i] == d.order[i] + " +" {
      assert |d.order[i] + " +"| != |d.order[i]|;
    }
  }

  /** `show(name, options, cb)`: the record of the resolved name, undefined when there is none. */
  function Show(file: StoredFile, name: Option<string>, account: Option<string>): (reply: Value)
    ensures var d := ReadFile(file); var key := KeyOf(Resolve(name, account, d.selected));
      (reply.Obj? <==> key in d.accounts) && (key in d.accounts ==> reply == Obj(d.accounts[key]))
      && (key !in d.accounts ==> reply == Undefined)
  {
    var d := ReadFile(file);
    Lookup(d, KeyOf(Resolve(name, account, d.selected)))
  }

  /**
   * `getSelected(options, name)`: the record of the resolved name, which
   * account.js stamps with that name; a name without a record throws.
   */
  function GetSelected(version: Version, file: StoredFile, name: Option<string>, account: Option<string>): (r: Result<Object>)
    ensures var d := ReadFile(file); var key := KeyOf(Resolve(name, account, d.selected));
      (r.Err? <==> key !in d.accounts) && (r.Err? ==> r.error == "Unknown account: " + key)
    ensures version == Legacy && r.Ok? ==>
      var d := ReadFile(file); r.value == d.accounts[KeyOf(Resolve(name, account, d.selected))]
  {
    var d := ReadFile(file);
    var resolved := Resolve(name, account, d.selected);
    var key := KeyOf(resolved);
    if key !in d.accounts then Err("Unknown account: " + key)
    else if version == Current then Ok(Set(d.accounts[key], "name", NameValue(resolved)))
    else Ok(d.accounts[key])
  }

  /** account.js hands out the record with `name` set to the resolved name and every other field as stored. */
  lemma GetSelectedStampsName(file: StoredFile, name: Option<string>, account: Option<string>, k: string)
    requires GetSelected(Current, file, name, account).Ok?
    ensures var d := ReadFile(file); var resolved := Resolve(name, account, d.selected);
      var record := GetSelected(Current, file, name, account).value;
      Get(record, "name") == NameValue(resolved)
      && (k != "name" ==> Get(record, k) == Get(d.accounts[KeyOf(resolved)], k))
  {
    var d := ReadFile(file);
    var resolved := Resolve(name, account, d.selected);
    SetGet(d.accounts[KeyOf(resolved)], "name", NameValue(resolved), "name");
    SetGet(d.accounts[KeyOf(resolved)], "name", NameValue(resolved), k);
  }

  // ---------------------------------------------------------------------
  // Commands that write the file.

  /**
   * `select(name, options, cb)`: `name || options.account` when it names an
   * account, else the chooser's pick among the account names becomes the
   * selection; nothing but the selection changes, and the reply is the
   * chosen record. `offered` is what the chooser was shown, if it was asked.
   */
  method Select(file: StoredFile, name: Option<string>, account: Option<string>, pick: Option<string>)
    returns (offered: Option<seq<string>>, written: Document, reply: Value)
    ensures var d := ReadFile(file); var asked := Or(name, account);
      var chosen := if KeyOf(asked) in d.accounts then asked else pick;
      written == d.(selected := chosen) && reply == Lookup(d, KeyOf(chosen))
      && offered == if KeyOf(asked) in d.accounts then None else Some(d.order)
  {
    var d := ReadFile(file);
    var data := new AccountsData(d);
    var asked := Or(name, account);
    var chosen;
    if Lookup(d, KeyOf(asked)).Obj? {
      offered, chosen := None, asked;
    } else {
      offered, chosen := Some(data.order), pick;
    }
    data.Select(chosen);
    written := data.Snapshot();
    reply := Lookup(written, KeyOf(chosen));
  }

  /** After select, show with no name shows the selected account, and list marks it. */
  lemma SelectThenShow(file: StoredFile, name: Option<string>, account: Option<string>, pick: Option<string>,
                       written: Document, reply: Value)
    requires file.Json? ==> WellFormed(file.doc)
    requires var d := ReadFile(file); var asked := Or(name, account);
      var chosen := if KeyOf(asked) in d.accounts then asked else pick;
      written == d.(selected := chosen) && reply == Lookup(d, KeyOf(chosen)) && Named(chosen)
    ensures Show(Json(written), None, None) == reply
    ensures forall i :: 0 <= i < |written.order| ==>
      (List(Current, Json(written))[i] == written.order[i] + " +" <==> Some(written.order[i]) == written.selected)
  {
    ListMarksSelected(Current, Json(written));
    forall i | 0 <= i < |written.order|
      ensures List(Current, Json(written))[i] == written.order[i] + " +" <==> Some(written.order[i]) == written.selected
    {
      assert |written.order[i] + " +"| != |written.order[i]|;
    }
  }

  /**
   * `del(name, options, cb)`: a known account is removed and the file
   * written; an unknown name writes nothing. Either way the callback gets
   * no error and no reply.
   */
  method Delete(file: StoredFile, name: string) returns (written: Option<Document>, reply: Completion)
    ensures var d := ReadFile(file);
      (written.Some? <==> name in d.accounts) && (written.Some? ==> written.value == Deleted(d, name))
    ensures reply == Completion(None, Undefined)
  {
    var d := ReadFile(file);
    var data := new AccountsData(d);
    written := None;
    if Lookup(d, name).Obj? {
      data.Remove(name);
      if Some(name) == data.selected {
        data.Select(None);
      }
      written := Some(data.Snapshot());
    }
    reply := Completion(None, Undefined);
  }

  /** How a command ended: it finished, it waits for a callback that never comes, or it threw. */
  datatype End = Finished | Waiting | Thrown(error: string)

  /** The callbacks a command made, the document it wrote (if any) and how it ended. */
  datatype Outcome = Outcome(calls: seq<Completion>, written: Option<Document>, end: End)

  /** The installed providers, as getProviders gives them. */
  function InstalledProviders(): Registry {
    RegistryOf(Installed)
  }

  /** A record answers every question even after a truthy value is set under some key. */
  lemma AnsweredAfterSet(questions: seq<Question>, results: Object, k: string, v: Value)
    requires AllAnswered(questions, results) && Truthy(v)
    ensures AllAnswered(questions, Set(results, k, v))
  {
    forall i | 0 <= i < |questions| ensures !Unanswered(Set(results, k, v), questions[i]) {
      SetGet(results, k, v, questions[i].name);
    }
  }

  /** Asks the provider's fields and stores the answers as the account `name`. */
  method CreateRecord(d: Document, name: string, provider: Provider, replies: seq<Object>)
    returns (record: Option<Object>, written: Option<Document>)
    requires provider.name != ""
    ensures record.Some? <==> written.Some?
    ensures record.Some? ==>
      AllAnswered(provider.fields, record.value) && Get(record.value, "provider") == Str(provider.name)
      && written.value == WrittenAccount(d, Some(name), record.value)
    ensures record.Some? ==>
      exists k :: 0 <= k <= |replies| && record.value == Set(Merged([], replies[..k]), "provider", Str(provider.name))
    ensures record.None? ==> !AllAnswered(provider.fields, Merged([], replies))
  {
    var answers, asked := RequireAnswers(provider.fields, None, replies);
    if answers.None? {
      return None, None;
    }
    assert answers.value == Merged([], replies[..|asked|]);
    var results := Set(answers.value, "provider", Str(provider.name));
    AnsweredAfterSet(provider.fields, answers.value, "provider", Str(provider.name));
    SetGet(answers.value, "provider", Str(provider.name), "provider");
    var data := new AccountsData(d);
    data.WriteAccount(Some(name), results);
    record, written := Some(results), Some(data.Snapshot());
  }

  /** The installed provider registered under `n`, if there is one. */
  function InstalledProvider(n: string): Option<Provider> {
    if n in InstalledProviders().byName then Some(InstalledProviders().byName[n]) else None
  }

  /** The provider create looks up: `options.provider` when it is given, else the chooser's pick. */
  function ChosenName(provider: Option<string>, pick: Option<string>): string {
    if Named(provider) then provider.value else KeyOf(pick)
  }

  /** Where create's provider and signup steps leave it: a provider whose fields to ask, or stopped with these replies. */
  datatype Choice = Proceed(provider: Provider) | Stopped(calls: seq<Completion>, end: End)

  /**
   * The first two steps of create: `options.provider` or the chooser's pick
   * is looked up, and a provider with a signup page asks whether the user has
   * an account, opening the page if not.
   */
  method ChooseProvider(provider: Option<string>, pick: Option<string>, hasAccount: bool, signupOpened: Option<Option<string>>)
    returns (c: Choice)
    ensures Named(provider) && InstalledProvider(provider.value).None? ==>
      c == Stopped([Completion(Some("unknown provider: " + provider.value), Undefined)], Finished)
    ensures !Named(provider) && InstalledProvider(KeyOf(pick)).None? ==>
      c == Stopped([], Thrown("TypeError: Cannot read property 'signupUri' of undefined"))
    ensures var p := InstalledProvider(ChosenName(provider, pick));
      p.Some? ==>
        if Named(p.value.signupUri) && !hasAccount && signupOpened != Some(None) then
          c == if signupOpened.None? then Stopped([], Waiting) else Stopped([Completion(signupOpened.value, Undefined)], Finished)
        else c == Proceed(p.value)
    ensures c.Proceed? ==>
      InstalledProvider(ChosenName(provider, pick)) == Some(c.provider) && c.provider.name == ChosenName(provider, pick) != ""
  {
    var providers := InstalledProviders();
    var chosen: string;
    if Named(provider) {
      if provider.value !in providers.byName {
        return Stopped([Completion(Some("unknown provider: " + provider.value), Undefined)], Finished);
      }
      chosen := provider.value;
    } else {
      if KeyOf(pick) !in providers.byName {
        return Stopped([], Thrown("TypeError: Cannot read property 'signupUri' of undefined"));
      }
      chosen := KeyOf(pick);
    }
    var p := providers.byName[chosen];
    RegisteredUnderOwnName(Installed, chosen);
    if Named(p.signupUri) && !hasAccount {
      if signupOpened.None? {
        return Stopped([], Waiting);
      }
      if signupOpened.value.Some? {
        return Stopped([Completion(signupOpened.value, Undefined)], Finished);
      }
    }
    c := Proceed(p);
  }

  /**
   * `create(name, options, cb)`. An existing name is reported and creation
   * goes on anyway. The provider comes from `options.provider` or from the
   * chooser; a provider with a signup page asks whether the user has an
   * account and, if not, opens the page; then its fields are asked and the
   * answers, with `provider` set to the provider's name, are stored.
   * `hasAccount` is the confirmation's answer, `signupOpened` what the browser's
   * callback got (None when it never calls back), `replies` the prompt's
   * answers round by round.
   */
  method Create(file: StoredFile, name: string, provider: Option<string>, pick: Option<string>, hasAccount: bool,
                signupOpened: Option<Option<string>>, replies: seq<Object>)
    returns (out: Outcome)
    ensures var d := ReadFile(file);
      name in d.accounts ==> |out.calls| > 0 && out.calls[0] == Completion(Some("account \"" + name + "\" already exists"), Undefined)
    ensures Named(provider) && InstalledProvider(provider.value).None? ==>
      out.written.None? && out.end == Finished && |out.calls| > 0
      && out.calls[|out.calls| - 1] == Completion(Some("unknown provider: " + provider.value), Undefined)
    ensures out.written.Some? <==> out.end == Finished && |out.calls| > 0 && out.calls[|out.calls| - 1].err.None?
    ensures out.written.Some? ==>
      var reply := out.calls[|out.calls| - 1].reply;
      reply.Obj? && out.written.value == WrittenAccount(ReadFile(file), Some(name), reply.members)
      && Get(reply.members, "provider").Str? && InstalledProvider(Get(reply.members, "provider").s).Some?
      && AllAnswered(InstalledProvider(Get(reply.members, "provider").s).value.fields, reply.members)
    ensures out.written.Some? ==>
      var reply := out.calls[|out.calls| - 1].reply;
      var chosen := ChosenName(provider, pick);
      reply.Obj? && Get(reply.members, "provider") == Str(chosen)
      && exists k :: 0 <= k <= |replies| && reply.members == Set(Merged([], replies[..k]), "provider", Str(chosen))
    ensures !Named(provider) && InstalledProvider(KeyOf(pick)).None? ==>
      out.written.None? && out.end == Thrown("TypeError: Cannot read property 'signupUri' of undefined")
    ensures var p := InstalledProvider(ChosenName(provider, pick));
      p.Some? && Named(p.value.signupUri) && !hasAccount ==>
        (signupOpened.None? ==> out.written.None? && out.end == Waiting)
        && (signupOpened.Some? && signupOpened.value.Some? ==>
          out.written.None? && out.end == Finished && |out.calls| > 0
          && out.calls[|out.calls| - 1] == Completion(signupOpened.value, Undefined))
    ensures var p := InstalledProvider(ChosenName(provider, pick));
      p.Some? && (!Named(p.value.signupUri) || hasAccount || signupOpened == Some(None))
      && AllAnswered(p.value.fields, Merged([], replies)) ==>
        out.written.Some?
  {
    var d := ReadFile(file);
    var calls: seq<Completion> := [];
    if Lookup(d, name).Obj? {
      calls := [Completion(Some("account \"" + name + "\" already exists"), Undefined)];
    }
    var chosen := ChooseProvider(provider, pick, hasAccount, signupOpened);
    if chosen.Stopped? {
      return Outcome(calls + chosen.calls, None, chosen.end);
    }
    var p := chosen.provider;
    var record, written := CreateRecord(d, name, p, replies);
    if record.None? {
      return Outcome(calls, None, Waiting);
    }
    out := Outcome(calls + [Completion(None, Obj(record.value))], written, Finished);
  }

  /** A created account can be shown by its name, and becomes the selection when nothing was selected. */
  lemma CreatedThenShown(d: Document, name: string, record: Object)
    requires WellFormed(d) && name != ""
    ensures Show(Json(WrittenAccount(d, Some(name), record)), Some(name), None) == Obj(record)
    ensures !Named(d.selected) ==> Show(Json(WrittenAccount(d, Some(name), record)), None, None) == Obj(record)
    ensures Named(d.selected) ==> WrittenAccount(d, Some(name), record).selected == d.selected
  {
    WrittenAccountFacts(d, Some(name), record);
  }

  /** Questions with the same names are answered by the same results. */
  lemma SameNamesAnswered(qs: seq<Question>, rs: seq<Question>, results: Object)
    requires |qs| == |rs| && forall i :: 0 <= i < |qs| ==> qs[i].name == rs[i].name
    ensures AllAnswered(qs, results) <==> AllAnswered(rs, results)
  {
    assert forall i :: 0 <= i < |qs| ==> (Unanswered(results, qs[i]) <==> Unanswered(results, rs[i]));
  }

  /**
   * `update(name, options, cb)`: the fields of the record's provider are
   * asked again, pre-filled with the current values (passwords excepted),
   * and the merged answers replace the record. A name without a record is
   * reported and then `account.provider` throws.
   */
  method Update(file: StoredFile, name: Option<string>, account: Option<string>, replies: seq<Object>)
    returns (out: Outcome)
    ensures var d := ReadFile(file); var key := KeyOf(Resolve(name, account, d.selected));
      key !in d.accounts ==>
        out == Outcome([Completion(Some("No account named: " + key), Undefined)], None,
                       Thrown("TypeError: Cannot read property 'provider' of undefined"))
    ensures var d := ReadFile(file); var key := KeyOf(Resolve(name, account, d.selected));
      key in d.accounts && ToJsString(Get(d.accounts[key], "provider")) !in InstalledProviders().byName ==>
        out == Outcome([], None, Thrown("TypeError: Cannot read property 'fields' of undefined"))
    ensures var d := ReadFile(file); var key := KeyOf(Resolve(name, account, d.selected));
      key in d.accounts && ToJsString(Get(d.accounts[key], "provider")) in InstalledProviders().byName ==>
        var fields := InstalledProviders().byName[ToJsString(Get(d.accounts[key], "provider"))].fields;
        (replies != [] && AllAnswered(fields, Merged(d.accounts[key], replies)) ==> out.written.Some?)
        && (replies == [] ==> out == Outcome([], None, Waiting))
        && (out.written.None? ==> out == Outcome([], None, Waiting))
    ensures out.written.Some? <==> out.end == Finished
    ensures out.written.Some? ==>
      var d := ReadFile(file); var resolved := Resolve(name, account, d.selected);
      |out.calls| == 1 && out.calls[0].err.None? && out.calls[0].reply.Obj?
      && out.written.value == WrittenAccount(d, resolved, out.calls[0].reply.members)
      && exists k :: 0 < k <= |replies| && out.calls[0].reply.members == Merged(d.accounts[KeyOf(resolved)], replies[..k])
  {
    var d := ReadFile(file);
    var resolved := Resolve(name, account, d.selected);
    var key := KeyOf(resolved);
    if !Lookup(d, key).Obj? {
      return Outcome([Completion(Some("No account named: " + key), Undefined)], None,
                     Thrown("TypeError: Cannot read property 'provider' of undefined"));
    }
    var record := d.accounts[key];
    var providers := InstalledProviders();
    var providerName := ToJsString(Get(record, "provider"));
    if providerName !in providers.byName {
      return Outcome([], None, Thrown("TypeError: Cannot read property 'fields' of undefined"));
    }
    var fields := providers.byName[providerName].fields;
    var questions := new Question[|fields|](i requires 0 <= i < |fields| => fields[i]);
    var answers, asked := UpdateAnswers(questions, Some(record), replies);
    forall i | 0 <= i < |fields| ensures questions[..][i].name == fields[i].name {
    }
    SameNamesAnswered(questions[..], fields, Merged(record, replies));
    if answers.None? {
      return Outcome([], None, Waiting);
    }
    assert 0 < |asked| <= |replies|;
    var data := new AccountsData(d);
    data.WriteAccount(resolved, answers.value);
    out := Outcome([Completion(None, Obj(answers.value))], Some(data.Snapshot()), Finished);
  }

  // ---------------------------------------------------------------------
  // Handing the selected account to its provider.

  /** What a deploy command does with the selected account before the provider runs. */
  datatype Handoff = Refused(reply: Completion) | Failed(error: string) | HandedOver(account: Object)

  /**
   * The guard of `deployVolosProxy(name, options, cb)`: only an account whose
   * provider is exactly "apigee" reaches the provider; any other is refused.
   */
  function VolosProxyHandoff(version: Version, file: StoredFile, name: Option<string>, account: Option<string>): (h: Handoff)
    ensures var selected := GetSelected(version, file, name, account);
      (h.Failed? <==> selected.Err?)
      && (h.HandedOver? <==> selected.Ok? && Get(selected.value, "provider") == Str(Apigee.Name))
      && (h.HandedOver? ==> h.account == selected.value)
      && (h.Refused? ==> h.reply == Completion(Some("Current account must be for Apigee provider"), Undefined))
  {
    match GetSelected(version, file, name, account)
    case Err(e) => Failed(e)
    case Ok(record) =>
      if Get(record, "provider") != Str(Apigee.Name) then Refused(Completion(Some("Current account must be for Apigee provider"), Undefined))
      else HandedOver(record)
  }

  /**
   * `deployVolosProxy(name, options, cb)`: past the guard, apigee's
   * deployVolosProxy runs with the account; `tool` is apigeetool's answer.
   * `deployed` tells whether apigeetool was called at all.
   */
  method DeployVolosProxy(version: Version, file: StoredFile, name: Option<string>, account: Option<string>,
                          debug: bool, volosProxyDir: string, tool: Apigee.ToolReply)
    returns (deployed: bool, calls: seq<Completion>, thrown: Option<string>)
    ensures deployed <==> VolosProxyHandoff(version, file, name, account).HandedOver?
    ensures VolosProxyHandoff(version, file, name, account).Refused? ==>
      calls == [VolosProxyHandoff(version, file, name, account).reply] && thrown.None?
    ensures VolosProxyHandoff(version, file, name, account).Failed? ==>
      calls == [] && thrown == Some(VolosProxyHandoff(version, file, name, account).error)
  {
    match VolosProxyHandoff(version, file, name, account)
    case Failed(e) =>
      return false, [], Some(e);
    case Refused(reply) =>
      return false, [reply], None;
    case HandedOver(record) =>
      var opts, crashed;
      opts, calls, crashed := Apigee.DeployVolosProxy(record, debug, volosProxyDir, tool);
      deployed := true;
      thrown := if crashed then Some("TypeError") else None;
  }

  /**
   * `deployProject(project, options, cb)` for the selected account (no
   * explicit name): the account goes to its provider's deployProject, which
   * only amazon has. The zip path and the reply come from the amazon model.
   */
  method DeployProject(version: Version, file: StoredFile, account: Option<string>, deploymentsDir: string,
                       srcDir: string, listing: seq<Amazon.Entry>, writeError: Option<string>)
    returns (zipFile: Option<string>, reply: Option<Completion>, thrown: Option<string>)
    ensures GetSelected(version, file, None, account).Err? ==>
      zipFile.None? && reply.None? && thrown == Some(GetSelected(version, file, None, account).error)
    ensures zipFile.Some? <==> (GetSelected(version, file, None, account).Ok?
      && ToJsString(Get(GetSelected(version, file, None, account).value, "provider")) == Amazon.Name)
    ensures zipFile.Some? ==>
      zipFile.value == deploymentsDir + "/" + ToJsString(Get(GetSelected(version, file, None, account).value, "name")) + ".zip"
  {
    match GetSelected(version, file, None, account)
    case Err(e) =>
      return None, None, Some(e);
    case Ok(record) =>
      var providers := InstalledProviders();
      InstalledRegistry();
      var providerName := ToJsString(Get(record, "provider"));
      if providerName !in providers.byName {
        return None, None, Some("TypeError: Cannot read property 'deployProject' of undefined");
      }
      if providerName != Amazon.Name {
        return None, None, Some("TypeError: undefined is not a function");
      }
      var zip, names, completion := Amazon.DeployProject(Get(record, "name"), deploymentsDir, srcDir, listing, writeError);
      return Some(zip), Some(completion), None;
  }

  /** An amazon account "prod", selected, stored without a `name` field as account records are. */
  const ProdFile := Json(Document(["prod"], map["prod" := [Member("provider", Str(Amazon.Name))]], Some("prod")))

  /**
   * index.js's getSelected hands the record over without its name, so
   * amazon's deployProject names the zip after `account.name`, which is
   * undefined: the selected account "prod" is zipped to "undefined.zip".
   */
  lemma LegacyZipUnnamed(deploymentsDir: string)
    ensures GetSelected(Legacy, ProdFile, None, None).Ok?
    ensures ToJsString(Get(GetSelected(Legacy, ProdFile, None, None).value, "provider")) == Amazon.Name
    ensures deploymentsDir + "/" + ToJsString(Get(GetSelected(Legacy, ProdFile, None, None).value, "name")) + ".zip"
      == deploymentsDir + "/undefined.zip"
  {
  }

  /** account.js stamps the resolved name, so the zip always carries the selected account's name. */
  lemma CurrentZipNamed(file: StoredFile, account: Option<string>)
    requires GetSelected(Current, file, None, account).Ok?
    ensures var d := ReadFile(file);
      ToJsString(Get(GetSelected(Current, file, None, account).value, "name")) == KeyOf(Resolve(None, account, d.selected))
  {
    GetSelectedStampsName(file, None, account, "name");
  }
}
