/**
 * The command-line helpers: the prompt loop that insists on an answer for
 * every question, the re-prompt that pre-fills current values, the command
 * wrapper with its argument guards, the exit-code rule and the recursive
 * printer for replies.
 *
 * The interactive prompt is an oracle: each round's reply is an object of
 * answers, given in order in `replies`.
 */
module Cli {
  import opened Wrappers
  import opened Js

  datatype QuestionType = Input | Password | List(choices: seq<string>) | Confirm

  /** A prompt descriptor `{ name, message, type, default }`; an unset default is `Undefined`. */
  datatype Question = Question(name: string, message: string, kind: QuestionType, default: Value)

  // ---------------------------------------------------------------------
  // getUnanswered

  /** `!results[question.name]`: no truthy answer yet. */
  predicate Unanswered(results: Object, q: Question) {
    !Truthy(Get(results, q.name))
  }

  /** The elements `keep` accepts, in their original order. */
  function Filter<T>(xs: seq<T>, keep: T -> bool): seq<T>
    decreases |xs|
  {
    if xs == [] then []
    else Filter(xs[..|xs| - 1], keep) + (if keep(xs[|xs| - 1]) then [xs[|xs| - 1]] else [])
  }

  lemma {:induction false} FilterAppend<T>(first: seq<T>, second: seq<T>, keep: T -> bool)
    ensures Filter(first + second, keep) == Filter(first, keep) + Filter(second, keep)
    decreases |second|
  {
    if second == [] {
      assert first + second == first;
    } else {
      var init := second[..|second| - 1];
      assert (first + second)[..|first + second| - 1] == first + init;
      FilterAppend(first, init, keep);
    }
  }

  lemma {:induction false} FilterMembers<T>(xs: seq<T>, keep: T -> bool, x: T)
    ensures x in Filter(xs, keep) <==> x in xs && keep(x)
    decreases |xs|
  {
    if xs != [] {
      var init := xs[..|xs| - 1];
      FilterMembers(init, keep, x);
      assert xs == init + [xs[|xs| - 1]];
    }
  }

  lemma {:induction false} FilterEmpty<T>(xs: seq<T>, keep: T -> bool)
    ensures Filter(xs, keep) == [] <==> forall i :: 0 <= i < |xs| ==> !keep(xs[i])
    decreases |xs|
  {
    if xs != [] {
      var init := xs[..|xs| - 1];
      FilterEmpty(init, keep);
      assert forall i :: 0 <= i < |init| ==> init[i] == xs[i];
    }
  }

  /** The questions still without a truthy answer, in their original order. */
  function UnansweredOf(questions: seq<Question>, results: Object): seq<Question> {
    Filter(questions, q => Unanswered(results, q))
  }

  predicate AllAnswered(questions: seq<Question>, results: Object) {
    forall i :: 0 <= i < |questions| ==> !Unanswered(results, questions[i])
  }

  /** `getUnanswered(questions, results)`: one pass over the questions, keeping those without an answer. */
  method GetUnanswered(questions: seq<Question>, results: Object) returns (unanswered: seq<Question>)
    ensures unanswered == UnansweredOf(questions, results)
  {
    unanswered := [];
    var i := 0;
    while i < |questions|
      invariant 0 <= i <= |questions|
      invariant unanswered == UnansweredOf(questions[..i], results)
    {
      var question := questions[i];
      assert questions[..i + 1][..i] == questions[..i];
      if !Truthy(Get(results, question.name)) {
        unanswered := unanswered + [question];
      }
      i := i + 1;
    }
    assert questions[..|questions|] == questions;
  }

  /** Filtering keeps the original order: filtering a concatenation concatenates the filtered parts. */
  lemma {:induction false} UnansweredAppend(first: seq<Question>, second: seq<Question>, results: Object)
    ensures UnansweredOf(first + second, results) == UnansweredOf(first, results) + UnansweredOf(second, results)
  {
    FilterAppend(first, second, q => Unanswered(results, q));
  }

  /** A question is kept exactly when it is one of the questions and has no truthy answer. */
  lemma {:induction false} UnansweredMembers(questions: seq<Question>, results: Object, q: Question)
    ensures q in UnansweredOf(questions, results) <==> q in questions && Unanswered(results, q)
  {
    FilterMembers(questions, q => Unanswered(results, q), q);
  }

  /** Nothing is left to ask exactly when every question has a truthy answer. */
  lemma {:induction false} UnansweredEmpty(questions: seq<Question>, results: Object)
    ensures UnansweredOf(questions, results) == [] <==> AllAnswered(questions, results)
  {
    FilterEmpty(questions, q => Unanswered(results, q));
  }

  // ---------------------------------------------------------------------
  // requireAnswers

  /** requireAnswers' starting results: `{}` in the two-argument form. */
  function Start(results: Option<Object>): Object {
    if results.Some? then results.value else []
  }

  /** The results after merging the given rounds of replies, one `_.extend` per round. */
  function Merged(start: Object, rounds: seq<Object>): Object
    decreases |rounds|
  {
    if rounds == [] then start
    else Extend(Merged(start, rounds[..|rounds| - 1]), rounds[|rounds| - 1])
  }

  /** What round k asks: the questions the first k replies leave unanswered. */
  function Round(questions: seq<Question>, start: Object, replies: seq<Object>, k: nat): seq<Question>
    requires k <= |replies|
  {
    UnansweredOf(questions, Merged(start, replies[..k]))
  }

  /** Round k asked exactly the questions left unanswered by the first k replies, and asked something. */
  predicate RoundsAsked(questions: seq<Question>, start: Object, replies: seq<Object>, asked: seq<seq<Question>>) {
    |asked| <= |replies| &&
    forall k :: 0 <= k < |asked| ==> asked[k] == Round(questions, start, replies, k) && asked[k] != []
  }

  lemma RoundsAskedNext(questions: seq<Question>, start: Object, replies: seq<Object>, asked: seq<seq<Question>>)
    requires RoundsAsked(questions, start, replies, asked) && |asked| < |replies|
    requires Round(questions, start, replies, |asked|) != []
    ensures RoundsAsked(questions, start, replies, asked + [Round(questions, start, replies, |asked|)])
  {
    var r := Round(questions, start, replies, |asked|);
    var next := asked + [r];
    assert forall k :: 0 <= k < |asked| ==> next[k] == asked[k];
    assert next[|asked|] == r;
  }

  /**
   * Prompts for the unanswered questions and merges the reply, round after
   * round, until nothing is unanswered. `asked[k]` is what round k asked;
   * None means the replies ran out with something still unanswered, so the
   * callback has not fired.
   */
  method RequireAnswers(questions: seq<Question>, results: Option<Object>, replies: seq<Object>)
    returns (answers: Option<Object>, asked: seq<seq<Question>>)
    ensures RoundsAsked(questions, Start(results), replies, asked)
    ensures answers.Some? ==>
      answers.value == Merged(Start(results), replies[..|asked|]) && AllAnswered(questions, answers.value)
    ensures answers.None? ==>
      |asked| == |replies| && !AllAnswered(questions, Merged(Start(results), replies))
  {
    var start := Start(results);
    var current := start;
    asked := [];
    assert replies[..0] == [];
    var unanswered := GetUnanswered(questions, current);
    while unanswered != [] && |asked| < |replies|
      invariant RoundsAsked(questions, start, replies, asked)
      invariant current == Merged(start, replies[..|asked|])
      invariant unanswered == UnansweredOf(questions, current)
      decreases |replies| - |asked|
    {
      var n := |asked|;
      assert unanswered == Round(questions, start, replies, n);
      RoundsAskedNext(questions, start, replies, asked);
      asked := asked + [unanswered];
      current := Extend(current, replies[n]);
      MergedNext(start, replies, n);
      unanswered := GetUnanswered(questions, current);
    }
    UnansweredEmpty(questions, current);
    if unanswered == [] {
      answers := Some(current);
    } else {
      assert replies[..|replies|] == replies;
      answers := None;
    }
  }

  lemma MergedNext(start: Object, replies: seq<Object>, n: nat)
    requires n < |replies|
    ensures Merged(start, replies[..n + 1]) == Extend(Merged(start, replies[..n]), replies[n])
  {
    assert replies[..n + 1][..n] == replies[..n];
  }

  /** Results that already answer everything are returned untouched, and nobody is prompted. */
  lemma AnsweredNeedsNoPrompt(questions: seq<Question>, results: Object)
    requires AllAnswered(questions, results)
    ensures UnansweredOf(questions, results) == []
  {
    UnansweredEmpty(questions, results);
  }

  /** Merging a first reply and then more rounds is merging all the rounds in order. */
  lemma {:induction false} MergedAfterFirst(start: Object, first: Object, rest: seq<Object>, k: nat)
    requires k <= |rest|
    ensures Merged(Extend(start, first), rest[..k]) == Merged(start, ([first] + rest)[..k + 1])
    decreases k
  {
    var all := [first] + rest;
    if k == 0 {
      assert all[..1][..0] == [];
    } else {
      MergedAfterFirst(start, first, rest, k - 1);
      assert rest[..k][..k - 1] == rest[..k - 1];
      assert all[..k + 1][..k] == all[..k];
      assert rest[..k][k - 1] == all[..k + 1][k];
    }
  }

  // ---------------------------------------------------------------------
  // updateAnswers

  /** A question after updateAnswers: pre-filled with the current value unless it is a password. */
  function Prefilled(q: Question, results: Object): Question {
    if q.kind.Password? then q else q.(default := Get(results, q.name))
  }

  /** The loop of updateAnswers that sets every non-password question's default, in place. */
  method Prefill(questions: array<Question>, results: Object)
    modifies questions
    ensures forall i :: 0 <= i < questions.Length ==> questions[i] == Prefilled(old(questions[i]), results)
  {
    var i := 0;
    while i < questions.Length
      invariant 0 <= i <= questions.Length
      invariant forall j :: 0 <= j < i ==> questions[j] == Prefilled(old(questions[j]), results)
      invariant forall j :: i <= j < questions.Length ==> questions[j] == old(questions[j])
    {
      var question := questions[i];
      assert question == old(questions[i]);
      if !question.kind.Password? {
        questions[i] := question.(default := Get(results, question.name));
      }
      assert questions[i] == Prefilled(question, results);
      i := i + 1;
    }
  }

  /**
   * Sets every non-password question's default to its current value (in place,
   * on the caller's question objects), prompts all questions once, merges that
   * reply and then insists on answers as requireAnswers does.
   */
  method UpdateAnswers(questions: array<Question>, results: Option<Object>, replies: seq<Object>)
    returns (answers: Option<Object>, asked: seq<seq<Question>>)
    modifies questions
    ensures forall i :: 0 <= i < questions.Length ==> questions[i] == Prefilled(old(questions[i]), Start(results))
    ensures |asked| <= |replies|
    ensures replies == [] ==> answers.None?
    ensures replies != [] ==> |asked| >= 1 && asked[0] == questions[..]
    ensures answers.Some? ==>
      answers.value == Merged(Start(results), replies[..|asked|]) && AllAnswered(questions[..], answers.value)
    ensures answers.None? && replies != [] ==>
      !AllAnswered(questions[..], Merged(Start(results), replies))
  {
    var start := Start(results);
    Prefill(questions, start);
    if replies == [] {
      answers, asked := None, [];
      return;
    }
    var all := questions[..];
    var more;
    answers, more := RequireAnswers(all, Some(Extend(start, replies[0])), replies[1..]);
    asked := [all] + more;
    FirstRoundThenRest(start, replies, all, answers, |more|);
  }

  /** What requireAnswers returns after the first round, seen from the whole reply list. */
  lemma FirstRoundThenRest(start: Object, replies: seq<Object>, all: seq<Question>, answers: Option<Object>, n: nat)
    requires replies != [] && n <= |replies| - 1
    requires answers.Some? ==>
      answers.value == Merged(Extend(start, replies[0]), replies[1..][..n]) && AllAnswered(all, answers.value)
    requires answers.None? ==>
      n == |replies| - 1 && !AllAnswered(all, Merged(Extend(start, replies[0]), replies[1..]))
    ensures answers.Some? ==> answers.value == Merged(start, replies[..n + 1]) && AllAnswered(all, answers.value)
    ensures answers.None? ==> !AllAnswered(all, Merged(start, replies))
  {
    AfterFirstRound(start, replies, n);
    if answers.None? {
      assert replies[1..][..|replies| - 1] == replies[1..];
      assert replies[..|replies|] == replies;
    }
  }

  /** `MergedAfterFirst` for a whole reply list: merging its head, then k more rounds. */
  lemma AfterFirstRound(start: Object, replies: seq<Object>, k: nat)
    requires replies != [] && k < |replies|
    ensures Merged(Extend(start, replies[0]), replies[1..][..k]) == Merged(start, replies[..k + 1])
  {
    MergedAfterFirst(start, replies[0], replies[1..], k);
    assert [replies[0]] + replies[1..] == replies;
  }

  // ---------------------------------------------------------------------
  // print

  /** The lines `print` writes to the console for a reply. */
  function Print(v: Value): seq<string> {
    match v
    case Undefined => [""]
    case Null => [""]
    case Arr(items) => PrintItems(items)
    case Obj(members) => PrintMembers(members)
    case _ => [ToJsString(v)]
  }

  /** Array elements printed one after another, with a `--` line between two elements. */
  function PrintItems(items: seq<Value>): seq<string> {
    if items == [] then []
    else if |items| == 1 then Print(items[0])
    else Print(items[0]) + ["--"] + PrintItems(items[1..])
  }

  /** `k: v` for a primitive member, `k:` and then the nested value for an array or object. */
  function PrintMembers(members: seq<Member>): seq<string> {
    if members == [] then []
    else
      var m := members[0];
      (if IsObject(m.val) then [m.key + ":"] + Print(m.val) else [m.key + ": " + ToJsString(m.val)])
      + PrintMembers(members[1..])
  }

  /** Total number of lines the elements print on their own. */
  function LineSum(items: seq<Value>): nat {
    if items == [] then 0 else |Print(items[0])| + LineSum(items[1..])
  }

  /** An n-element array prints its elements' lines plus n - 1 separators. */
  lemma {:induction false} PrintItemsLineCount(items: seq<Value>)
    requires items != []
    ensures |PrintItems(items)| == LineSum(items) + |items| - 1
    decreases |items|
  {
    if |items| > 1 {
      PrintItemsLineCount(items[1..]);
    }
  }

  /** Every element of an array prints between its separators: the lines before the k-th `--` are the first k elements'. */
  lemma {:induction false} PrintItemsPrefix(items: seq<Value>, k: nat)
    requires 0 < k < |items|
    ensures |PrintItems(items)| > LinesBefore(items, k) + k - 1
    ensures PrintItems(items)[LinesBefore(items, k) + k - 1] == "--"
    decreases k
  {
    if k > 1 {
      PrintItemsPrefix(items[1..], k - 1);
      assert LinesBefore(items, k) == |Print(items[0])| + LinesBefore(items[1..], k - 1);
    }
  }

  /** Lines printed by the first k elements alone. */
  function LinesBefore(items: seq<Value>, k: nat): nat
    requires k <= |items|
  {
    if k == 0 then 0 else |Print(items[0])| + LinesBefore(items[1..], k - 1)
  }

  /** An object of primitive values prints exactly one `key: value` line per member, in order. */
  lemma {:induction false} PrintFlatObject(members: seq<Member>)
    requires forall i :: 0 <= i < |members| ==> !IsObject(members[i].val)
    ensures |PrintMembers(members)| == |members|
    ensures forall i :: 0 <= i < |members| ==>
      PrintMembers(members)[i] == members[i].key + ": " + ToJsString(members[i].val)
    decreases |members|
  {
    if members != [] {
      PrintFlatObject(members[1..]);
    }
  }

  // ---------------------------------------------------------------------
  // printAndExit and execute

  /** What printAndExit does: the error it reports, the lines it prints and the exit code. */
  datatype Exit = Exit(error: Option<string>, lines: seq<string>, code: int)

  /**
   * `printAndExit(err, output, code)`; a `code` of 0 stands for both 0 and an
   * omitted code, which JavaScript's `||` treats alike.
   */
  function PrintAndExit(err: Option<string>, output: Value, code: int): (e: Exit)
    ensures err.Some? ==> e.error == err && e.lines == [] && e.code != 0
    ensures err.Some? && code != 0 ==> e.code == code
    ensures err.None? ==> e.error.None? && e.code == code
    ensures err.None? ==> e.lines == if IsNullish(output) then [] else Print(output)
  {
    if err.Some? then Exit(err, [], if code != 0 then code else 1)
    else Exit(None, if !IsNullish(output) then Print(output) else [], code)
  }

  /** A command function, seen through its declared parameter count (callback included). */
  datatype Command = Command(arity: nat)

  /** What the command did when called: threw, or returned a (possibly falsy) reply. */
  datatype Run = Threw(error: string) | Returned(reply: Value)

  /** One call of execute's callback. */
  datatype Completion = Completion(err: Option<string>, reply: Value)

  /**
   * The callback execute's wrapper calls itself, before the command's own
   * asynchronous completion; None when it leaves completion to the command.
   */
  function Dispatch(command: Option<Command>, argc: nat, run: Run): (c: Option<Completion>)
    ensures command.None? ==> c == Some(Completion(Some("missing command method"), Undefined))
    ensures command.Some? && argc + 1 != command.value.arity ==>
      c == Some(Completion(Some("incorrect arguments"), Undefined))
    ensures command.Some? && argc + 1 == command.value.arity && run.Threw? ==>
      c == Some(Completion(Some(run.error), Undefined))
    ensures command.Some? && argc + 1 == command.value.arity && run.Returned? && Truthy(run.reply) ==>
      c == Some(Completion(None, run.reply))
    ensures c.Some? && c.value.err.None? ==> run.Returned? && Truthy(c.value.reply) && c.value.reply == run.reply
    ensures c.None? <==> command.Some? && argc + 1 == command.value.arity && run.Returned? && !Truthy(run.reply)
  {
    if command.None? then Some(Completion(Some("missing command method"), Undefined))
    else if argc + 1 != command.value.arity then Some(Completion(Some("incorrect arguments"), Undefined))
    else match run
      case Threw(e) => Some(Completion(Some(e), Undefined))
      case Returned(reply) => if Truthy(reply) then Some(Completion(None, reply)) else None
  }

  /** The header banner: an empty line, the header and a rule of `=` as long as the header. */
  function Banner(header: string): seq<string> {
    Print(Undefined) + Print(Str(header)) + Print(Str(seq(|header|, _ => '=')))
  }

  /** execute's callback: the banner on success, `done` for an empty reply, then printAndExit. */
  function Finish(header: string, c: Completion): (e: Exit)
  {
    var banner := if header != "" && c.err.None? then Banner(header) else [];
    var reply := if !Truthy(c.reply) && c.err.None? then Str("done") else c.reply;
    var exit := PrintAndExit(c.err, reply, 0);
    exit.(lines := banner + exit.lines)
  }

  /** A completion without error exits 0 and prints the reply, or `done` when the reply is falsy; an error exits 1. */
  lemma FinishOutcome(header: string, c: Completion)
    ensures c.err.Some? ==> Finish(header, c) == Exit(c.err, [], 1)
    ensures c.err.None? ==> Finish(header, c).code == 0
    ensures c.err.None? && !Truthy(c.reply) ==> Finish(header, c).lines[|Finish(header, c).lines| - 1] == "done"
    ensures c.err.None? && header == "" && Truthy(c.reply) ==> Finish(header, c).lines == Print(c.reply)
  {
  }

  /** Every guard failure of execute ends the process with exit code 1, reporting the guard's message or the thrown error. */
  lemma GuardFailuresExitOne(command: Option<Command>, argc: nat, run: Run, header: string)
    requires command.None? || argc + 1 != command.value.arity || run.Threw?
    ensures Dispatch(command, argc, run).Some?
    ensures Finish(header, Dispatch(command, argc, run).value).code == 1
    ensures Finish(header, Dispatch(command, argc, run).value).error.Some?
    ensures command.Some? && argc + 1 == command.value.arity ==>
      Finish(header, Dispatch(command, argc, run).value).error == Some(run.error)
  {
  }
}
