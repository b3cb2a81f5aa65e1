/** Every run of the bridge has a twin without the skip; and a run the two are told apart by, with no clear in it. */
module TwinRuns {
  import opened Presence
  import opened Replay
  import opened CacheContents
  import opened Bridge
  import opened TrackedCards
  import opened SkippedPublishes
  import opened EagerBridge
  import opened SkipRuns

  // ---------------------------------------------------------------- twins exist

  lemma Shape(t: Twins)
    requires IsTwinRun(t)
    ensures Shaped(t)
  {
  }

  lemma TablesAgree(t: Twins)
    requires IsTwinRun(t)
    ensures SameTables(t.states[|t.inputs|], t.eagers[|t.inputs|])
  {
    var n := |t.inputs|;
    if n > 0 { assert StepsBoth(t, n - 1); }
  }

  /** One more input for both. */
  lemma Grown(t: Twins, input: Input, answers: Answers, sent: seq<Message>, b': State) returns (t': Twins)
    requires IsTwinRun(t) && BridgeStep(t.states[|t.inputs|], input, answers, true, sent, b')
    ensures IsTwinRun(t') && t'.inputs == t.inputs + [input] && t'.answers == t.answers + [answers]
    ensures t'.states == t.states + [b'] && t'.sents == t.sents + [sent]
  {
    var n := |t.inputs|;
    hide TablesMove, Sends;
    TablesAgree(t);
    var plain, feed := SendsExists(t.eagers[n].feed, input, answers, false);
    var e' := b'.(feed := feed);
    TablesIgnoreFeed(t.states[n], input, answers, b', t.eagers[n], e');
    t' := Twins(t.inputs + [input], t.answers + [answers], t.states + [b'], t.sents + [sent], t.eagers + [e'],
                t.plains + [plain]);
    assert BridgeStep(t.eagers[n], input, answers, false, plain, e') && SameTables(b', e');
    hide BridgeStep, SameTables;
    forall i | 0 <= i < |t'.inputs| ensures StepsBoth(t', i) {
      if i < n { assert StepsBoth(t, i); }
    }
  }

  /** Every run of the bridge has a twin that broadcasts every command. */
  lemma {:induction false} EveryRunHasTwin(states: seq<State>, inputs: seq<Input>, sents: seq<seq<Message>>)
    returns (t: Twins)
    requires IsBridgeRun(states, inputs, sents) && states[0] == Initial
    ensures IsTwinRun(t) && t.states == states && t.inputs == inputs && t.sents == sents
    decreases |inputs|
  {
    if inputs == [] {
      t := Twins([], [], [Initial], [], [Initial], []);
      assert states == [Initial];
    } else {
      var n := |inputs| - 1;
      RunPrefix(states, inputs, sents, n);
      assert Step(states[n], inputs[n], sents[n], states[n + 1]);
      hide Step, BridgeStep, IsTwinRun, IsBridgeRun;
      t := EveryRunHasTwin(states[..n + 1], inputs[..n], sents[..n]);
      StepFactors(states[n], inputs[n], sents[n], states[n + 1]);
      var answers :| BridgeStep(states[n], inputs[n], answers, true, sents[n], states[n + 1]);
      t := Grown(t, inputs[n], answers, sents[n], states[n + 1]);
      OneLonger(states, n + 1);
      OneLonger(inputs, n);
      OneLonger(sents, n);
      assert states[..n + 2] == states && inputs[..n + 1] == inputs && sents[..n + 1] == sents;
    }
  }

  lemma RunPrefix(states: seq<State>, inputs: seq<Input>, sents: seq<seq<Message>>, n: nat)
    requires IsBridgeRun(states, inputs, sents) && n <= |inputs|
    ensures IsBridgeRun(states[..n + 1], inputs[..n], sents[..n])
  {
    hide Step;
    var some := inputs[..n];
    forall i {:trigger some[i]} | 0 <= i < n
      ensures Step(states[..n + 1][i], some[i], sents[..n][i], states[..n + 1][i + 1])
    {
      assert Step(states[i], inputs[i], sents[i], states[i + 1]);
    }
  }

  /** And the first of two twins is a run of the bridge. */
  lemma TwinIsRun(t: Twins)
    requires IsTwinRun(t)
    ensures IsBridgeRun(t.states, t.inputs, t.sents)
  {
    hide Step, BridgeStep;
    forall i {:trigger t.inputs[i]} | 0 <= i < |t.inputs|
      ensures Step(t.states[i], t.inputs[i], t.sents[i], t.states[i + 1])
    {
      assert StepsBoth(t, i);
      StepFactors(t.states[i], t.inputs[i], t.sents[i], t.states[i + 1]);
    }
  }

  /** There are twins for any inputs and any answers of the liveness probe. */
  lemma {:induction false} TwinsExist(inputs: seq<Input>, probes: seq<Pid -> bool>) returns (t: Twins)
    requires |probes| == |inputs|
    ensures IsTwinRun(t) && t.inputs == inputs && forall i :: 0 <= i < |inputs| ==> t.answers[i].alive == probes[i]
    decreases |inputs|
  {
    if inputs == [] {
      t := Twins([], [], [Initial], [], [Initial], []);
    } else {
      var n := |inputs| - 1;
      hide TablesMove, Sends, IsTwinRun;
      t := TwinsExist(inputs[..n], probes[..n]);
      Shape(t);
      var b := t.states[n];
      var answers, moved := TablesCanMove(b, inputs[n], probes[n]);
      var sent, feed := SendsExists(b.feed, inputs[n], answers, true);
      TablesIgnoreFeed(b, inputs[n], answers, moved, b, moved.(feed := feed));
      t := Grown(t, inputs[n], answers, sent, moved.(feed := feed));
    }
  }

  // ---------------------------------------------------------------- told apart by an empty table

  function Says(pid: Pid, activity: Activity): Command { Command(Some(Args(Some(pid), Some(activity))), None) }

  function Hello(pid: Pid, activity: Activity): Input { Request(Says(pid, activity), false) }

  /** The first `n` games' cards. */
  function Cards(n: nat, activity: Activity): seq<Message> {
    seq(n, i requires 0 <= i < n => Says(i + 1, activity).Own())
  }

  /** Fifty games publish, the first repeats itself, a fifty-first publishes, and the process table empties. */
  ghost predicate IsRepeatRun(inputs: seq<Input>, activity: Activity) {
    && |inputs| == 53
    && (forall i :: 0 <= i < 50 ==> inputs[i] == Hello(i + 1, activity))
    && inputs[50] == Hello(1, activity) && inputs[51] == Hello(51, activity) && inputs[52] == Scan(Cleared)
  }

  lemma CardsAreFresh(n: nat, activity: Activity)
    ensures AllFresh(Cards(n, activity))
  {
  }

  lemma CardsNext(n: nat, activity: Activity)
    ensures Cards(n + 1, activity) == Cards(n, activity) + [Says(n + 1, activity).Own()]
  {
  }

  lemma {:induction false} OnlySocketsSent(messages: seq<Message>, s: SocketId)
    requires s in View(messages)
    ensures exists i :: 0 <= i < |messages| && messages[i].socket == s
  {
    var n := |messages| - 1;
    if messages[n].socket != s {
      OnlySocketsSent(messages[..n], s);
      var i :| 0 <= i < n && messages[..n][i].socket == s;
      assert messages[i].socket == s;
    }
  }

  lemma NothingResumed(b: State, command: Command, alive: Pid -> bool, games: seq<Game>)
    requires !command.GenuineClear() && IsResumption(b, command, alive, games)
    ensures games == []
  {
    FirstIn(games);
    assert Released(b.owners, command) == {};
  }

  lemma FirstIn<T>(s: seq<T>)
    ensures s == [] || s[0] in s
  {
  }

  lemma HelloSends(b: State, pid: Pid, activity: Activity, answers: Answers, skips: bool, sent: seq<Message>, b': State)
    requires BridgeStep(b, Hello(pid, activity), answers, skips, sent, b')
    ensures sent == OwnMessage(b.feed, Hello(pid, activity), skips)
  {
    hide Delivers, OwnMessage, OwnersAfter, TracksTo;
    var games :| IsResumption(b, Says(pid, activity), answers.alive, games) && answers.cards == GenericCards(games);
    NothingResumed(b, Says(pid, activity), answers.alive, games);
    assert |answers.cards| == |GenericCards(games)| == |games| == 0;
    assert answers.cards == [];
    assert [] + OwnMessage(b.feed, Hello(pid, activity), skips) == OwnMessage(b.feed, Hello(pid, activity), skips);
  }

  /** A first publish is sent. */
  lemma FirstIsSent(messages: seq<Message>, n: nat, activity: Activity)
    requires messages == Cards(n, activity)
    ensures Changes(messages, Says(n + 1, activity))
  {
    var s := PidSocket(n + 1);
    if s in View(messages) { OnlySocketsSent(messages, s); }
  }

  /** The first game's repetition is not. */
  lemma RepeatIsSkipped(activity: Activity)
    ensures !Changes(Cards(50, activity), Says(1, activity))
  {
    var messages := Cards(50, activity);
    CardsAreFresh(50, activity);
    assert messages[0] == Says(1, activity).Own() && messages[..50] == messages;
    hide View, Crowded, AllFresh;
    FreshIsShown(messages, 0, 50);
    FreshCrowdedIff(messages, 0);
  }

  lemma SkippingSends(t: Twins, i: nat, pid: Pid, activity: Activity)
    requires IsTwinRun(t) && i < |t.inputs| && t.inputs[i] == Hello(pid, activity)
    ensures Flat(t.sents[..i + 1]) == Flat(t.sents[..i]) + OwnSent(Flat(t.sents[..i]), Says(pid, activity))
  {
    hide Flat, BridgeStep, Changes, Delivers, ActivityChanged;
    TwinsDeliver(t, i);
    ChangedIffChanges(Flat(t.sents[..i]), t.states[i].feed, Says(pid, activity));
    assert StepsBoth(t, i);
    HelloSends(t.states[i], pid, activity, t.answers[i], true, t.sents[i], t.states[i + 1]);
    FlatNext(t.sents, i);
  }

  lemma EagerSends(t: Twins, i: nat, pid: Pid, activity: Activity)
    requires IsTwinRun(t) && i < |t.inputs| && t.inputs[i] == Hello(pid, activity)
    ensures Flat(t.plains[..i + 1]) == Flat(t.plains[..i]) + [Says(pid, activity).Own()]
  {
    hide Flat, BridgeStep, ActivityChanged;
    assert StepsBoth(t, i);
    HelloSends(t.eagers[i], pid, activity, t.answers[i], false, t.plains[i], t.eagers[i + 1]);
    FlatNext(t.plains, i);
  }

  ghost predicate SentCards(t: Twins, activity: Activity, n: nat)
    requires Shaped(t) && n <= |t.inputs|
  {
    Flat(t.sents[..n]) == Flat(t.plains[..n]) == Cards(n, activity)
  }

  lemma OneMoreCard(t: Twins, activity: Activity, i: nat)
    requires IsTwinRun(t) && i < |t.inputs| && t.inputs[i] == Hello(i + 1, activity) && SentCards(t, activity, i)
    ensures SentCards(t, activity, i + 1)
  {
    hide Flat, Changes, Cards, StepsBoth, Hello, Says;
    FirstIsSent(Cards(i, activity), i, activity);
    SkippingSends(t, i, i + 1, activity);
    EagerSends(t, i, i + 1, activity);
    CardsNext(i, activity);
  }

  lemma FirstFifty(t: Twins, activity: Activity, n: nat)
    requires IsTwinRun(t) && IsRepeatRun(t.inputs, activity) && n <= 50
    ensures SentCards(t, activity, n)
  {
    assert SentCards(t, activity, 0);
    hide SentCards, StepsBoth, Hello;
    for i := 0 to n
      invariant SentCards(t, activity, i)
    {
      OneMoreCard(t, activity, i);
    }
  }

  /** What the two have sent before the table empties. */
  lemma BeforeCleared(t: Twins, activity: Activity)
    requires IsTwinRun(t) && IsRepeatRun(t.inputs, activity)
    ensures Flat(t.sents[..52]) == Cards(51, activity)
    ensures Flat(t.plains[..52]) == (Cards(50, activity) + [Says(1, activity).Own()]) + [Says(51, activity).Own()]
  {
    Shape(t);
    hide Flat, Changes, Cards, IsTwinRun;
    FirstFifty(t, activity, 50);
    RepeatIsSkipped(activity);
    SkippingSends(t, 50, 1, activity);
    EagerSends(t, 50, 1, activity);
    assert Cards(50, activity) + [] == Cards(50, activity);
    FirstIsSent(Cards(50, activity), 50, activity);
    SkippingSends(t, 51, 51, activity);
    EagerSends(t, 51, 51, activity);
    CardsNext(50, activity);
  }

  /** The skipping bridge has lost the first card from its cache. */
  lemma FirstIsCrowded(activity: Activity)
    ensures var a, s := Cards(51, activity), PidSocket(1);
            s in View(a) && View(a)[s] == Says(1, activity).Payload() && Crowded(a, s)
  {
    var messages := Cards(51, activity);
    CardsAreFresh(51, activity);
    assert messages[0] == Says(1, activity).Own() && messages[..51] == messages;
    hide View, Crowded, AllFresh;
    FreshIsShown(messages, 0, 51);
    FreshCrowdedIff(messages, 0);
  }

  /** A repeated card with one more behind it is not crowded. */
  lemma RepeatedIsHeld(before: seq<Message>, card: Message, next: Message)
    requires !card.payload.IsClear() && !next.payload.IsClear() && card.socket != next.socket
    ensures var p, s := (before + [card]) + [next], card.socket;
            s in View(p) && View(p)[s] == card.payload && !Crowded(p, s)
  {
    var mid := before + [card];
    ViewNext(before, card);
    ViewNext(mid, next);
    LedgerSnoc(before, card);
    LedgerNumbers(before);
    LedgerSnoc(mid, next);
    LedgerNumbers(mid);
    hide View, LedgerOf, Crowded;
    NewCardIsAlone(before, card);
    CrowdedNext(mid, next, card.socket);
    assert Newer(LedgerOf(mid + [next]).live, card.socket) == {next.socket};
  }

  /** The reaping at the end leaves the card with the one and not with the other. */
  lemma ReapedOnce(t: Twins, a: seq<Message>, p: seq<Message>, s: SocketId)
    requires IsTwinRun(t) && |t.inputs| == 53 && t.inputs[52] == Scan(Cleared) && s.PidSocket?
    requires Flat(t.sents[..52]) == a && Flat(t.plains[..52]) == p
    requires s in View(a) && s in View(p) && Crowded(a, s) && !Crowded(p, s)
    requires IsGhost(s, View(a)[s], t.answers[52].alive) && IsGhost(s, View(p)[s], t.answers[52].alive)
    ensures s in View(Flat(t.sents)) && s !in View(Flat(t.plains))
  {
    hide Flat, View, Crowded, Delivers, IsGhost, TablesMove, SendsReaping, OnAppSockets, Sockets;
    TwinsDeliver(t, 52);
    var answers := t.answers[52];
    assert StepsBoth(t, 52);
    CardsOnAppSockets(t.states[52], t.inputs[52], answers, t.states[53]);
    NotAmongCards(answers.cards, s);
    ReapLeaves(a, t.states[52].feed, answers, t.sents[52], t.states[53].feed, s);
    ReapLeaves(p, t.eagers[52].feed, answers, t.plains[52], t.eagers[53].feed, s);
    FlatNext(t.sents, 52);
    FlatNext(t.plains, 52);
    assert t.sents[..53] == t.sents && t.plains[..53] == t.plains;
  }

  lemma NotAmongCards(cards: seq<Message>, s: SocketId)
    requires OnAppSockets(cards) && s.PidSocket?
    ensures s !in Sockets(cards)
  {
    SocketsAre(cards, s);
  }

  /**
   A skipped repetition can be told without any clear command: fifty games publish, the first repeats itself, a
   fifty-first publishes, and then the process table is empty and the first game's process dead. Its card stays on
   display, and the bridge without the skip clears it.
   */
  lemma RepeatTellsApart(t: Twins, activity: Activity)
    requires IsTwinRun(t) && IsRepeatRun(t.inputs, activity) && !t.answers[52].alive(1)
    ensures PidSocket(1) in View(Flat(t.sents)) && PidSocket(1) !in View(Flat(t.plains))
    ensures forall i :: 0 <= i < 53 ==> !Swallows(Flat(t.sents[..i]), t.inputs[i])
  {
    hide Cards, Flat, View, Crowded, BridgeStep;
    BeforeCleared(t, activity);
    FirstIsCrowded(activity);
    RepeatedIsHeld(Cards(50, activity), Says(1, activity).Own(), Says(51, activity).Own());
    ReapedOnce(t, Flat(t.sents[..52]), Flat(t.plains[..52]), PidSocket(1));
  }

  /** Such a run exists. */
  lemma RepeatRunExists(activity: Activity) returns (t: Twins)
    ensures IsTwinRun(t) && IsRepeatRun(t.inputs, activity) && !t.answers[52].alive(1)
  {
    hide IsTwinRun, Hello;
    var inputs: seq<Input> := seq(50, i requires 0 <= i < 50 => Hello(i + 1, activity)) +
                              [Hello(1, activity), Hello(51, activity), Scan(Cleared)];
    var dead: Pid -> bool := p => p != 1;
    var probes: seq<Pid -> bool> := seq(53, _ => dead);
    t := TwinsExist(inputs, probes);
    Shape(t);
    assert t.answers[52].alive == probes[52] == dead;
  }
}
