/**
 * Matches the requests of one client with the responses of the consensus, in whatever order they
 * come. A request is answered through the channel that was registered with it.
 */
module RequestMatcher {
  import opened Wrappers

  type RequestId = nat

  /** Identifies a channel. Each request brings its own. */
  type ChannelId = nat

  datatype Inner<R> = Neither | Channel(channel: ChannelId) | Response(payload: R)

  datatype State<R> = State(id: RequestId, inner: Inner<R>)

  datatype Event<R> = Request(id: RequestId, channel: ChannelId) | Respond(id: RequestId, payload: R)

  datatype Answer<R> = Answer(id: RequestId, channel: ChannelId, payload: R)

  /** The new state, whether the request goes to the consensus, and the answer given. */
  datatype Outcome<R> = Outcome(state: State<R>, forward: bool, answer: Option<Answer<R>>)

  function Initial<R>(): State<R> {
    State(0, Neither)
  }

  function Handle<R>(s: State<R>, e: Event<R>): Outcome<R> {
    if e.id < s.id then Outcome(s, false, None)
    else match e
      case Request(id, channel) =>
        if id > s.id || s.inner.Neither? then Outcome(State(id, Channel(channel)), true, None)
        else if s.inner.Channel? then Outcome(State(id, Channel(channel)), false, None)
        else Outcome(State(id + 1, Neither), false, Some(Answer(id, channel, s.inner.payload)))
      case Respond(id, payload) =>
        if id > s.id || s.inner.Neither? then Outcome(State(id, Response(payload)), false, None)
        else if s.inner.Channel? then Outcome(State(id + 1, Neither), false, Some(Answer(id, s.inner.channel, payload)))
        else Outcome(State(id, Neither), false, None)
  }

  // ---------------------------------------------------------------------------------------------
  // Runs

  datatype History<R> = History(state: State<R>, forwarded: seq<RequestId>, answers: seq<Answer<R>>)

  function Extended<R>(h: History<R>, e: Event<R>): History<R> {
    var o := Handle(h.state, e);
    History(o.state,
            if o.forward then h.forwarded + [e.id] else h.forwarded,
            if o.answer.Some? then h.answers + [o.answer.value] else h.answers)
  }

  function Run<R>(events: seq<Event<R>>): History<R> {
    if events == [] then History(Initial(), [], []) else Extended(Run(events[..|events| - 1]), events[|events| - 1])
  }

  ghost predicate Increasing(ids: seq<RequestId>) {
    forall i, j :: 0 <= i < j < |ids| ==> ids[i] < ids[j]
  }

  /** Every id was forwarded before the current one, or it is the current one and still waits for its response. */
  ghost predicate ForwardedOk<R>(h: History<R>) {
    && Increasing(h.forwarded)
    && forall id :: id in h.forwarded ==> id < h.state.id || (id == h.state.id && h.state.inner.Channel?)
  }

  /** What is stored belongs to the current id. */
  ghost predicate StoredOk<R>(h: History<R>, events: seq<Event<R>>) {
    match h.state.inner
    case Neither => true
    case Channel(c) => Request(h.state.id, c) in events
    case Response(p) => Respond(h.state.id, p) in events
  }

  ghost predicate AnswersOk<R>(h: History<R>, events: seq<Event<R>>) {
    && (forall i, j :: 0 <= i < j < |h.answers| ==> h.answers[i].id < h.answers[j].id)
    && (forall a :: a in h.answers ==>
          a.id < h.state.id && Request(a.id, a.channel) in events && Respond(a.id, a.payload) in events)
  }

  lemma ForwardedStays<R>(h: History<R>, e: Event<R>)
    requires ForwardedOk(h)
    ensures ForwardedOk(Extended(h, e)) && h.state.id <= Extended(h, e).state.id
  {
    var h' := Extended(h, e);
    forall i, j | 0 <= i < j < |h'.forwarded| ensures h'.forwarded[i] < h'.forwarded[j] {
      assert h'.forwarded[i] in h.forwarded;
    }
  }

  lemma AnswersStay<R>(h: History<R>, events: seq<Event<R>>, e: Event<R>)
    requires StoredOk(h, events) && AnswersOk(h, events)
    ensures StoredOk(Extended(h, e), events + [e]) && AnswersOk(Extended(h, e), events + [e])
  {
    MoreEvents(h, events, e);
    StepAnswers(h, events + [e], e);
  }

  lemma MoreEvents<R>(h: History<R>, events: seq<Event<R>>, e: Event<R>)
    requires StoredOk(h, events) && AnswersOk(h, events)
    ensures StoredOk(h, events + [e]) && AnswersOk(h, events + [e])
  {
  }

  lemma StepAnswers<R>(h: History<R>, events: seq<Event<R>>, e: Event<R>)
    requires StoredOk(h, events) && AnswersOk(h, events) && e in events
    ensures StoredOk(Extended(h, e), events) && AnswersOk(Extended(h, e), events)
  {
    var h' := Extended(h, e);
    forall i, j | 0 <= i < j < |h'.answers| ensures h'.answers[i].id < h'.answers[j].id {
      assert h'.answers[i] in h.answers;
    }
  }

  /** Over any sequence of requests and responses the ids forwarded to the consensus strictly increase. */
  lemma {:induction false} ForwardsEachIdOnce<R>(events: seq<Event<R>>)
    ensures ForwardedOk(Run(events)) && Increasing(Run(events).forwarded)
  {
    if events != [] {
      ForwardsEachIdOnce(events[..|events| - 1]);
      ForwardedStays(Run(events[..|events| - 1]), events[|events| - 1]);
    }
  }

  lemma {:induction false} IdNeverDecreases<R>(events: seq<Event<R>>, more: seq<Event<R>>)
    ensures Run(events).state.id <= Run(events + more).state.id
  {
    if more == [] {
      assert events + more == events;
    } else {
      var n := |more| - 1;
      IdNeverDecreases(events, more[..n]);
      assert (events + more)[..|events + more| - 1] == events + more[..n];
    }
  }

  lemma {:induction false} RunAnswers<R>(events: seq<Event<R>>)
    ensures StoredOk(Run(events), events) && AnswersOk(Run(events), events)
  {
    if events != [] {
      var n := |events| - 1;
      RunAnswers(events[..n]);
      assert events == events[..n] + [events[n]];
      AnswersStay(Run(events[..n]), events[..n], events[n]);
    }
  }

  /** No channel is registered twice. */
  ghost predicate OwnChannels<R(!new)>(events: seq<Event<R>>) {
    forall e, f :: e in events && f in events && e.Request? && f.Request? && e.channel == f.channel ==> e == f
  }

  /**
   * Over any sequence of requests and responses each channel is answered at most once, and only
   * with a response to the id it was registered under.
   */
  lemma AnswersMatch<R(!new)>(events: seq<Event<R>>)
    requires OwnChannels(events)
    ensures var answers := Run(events).answers;
            && (forall i, j :: 0 <= i < j < |answers| ==> answers[i].channel != answers[j].channel)
            && (forall a, e :: a in answers && e in events && e.Request? && e.channel == a.channel ==>
                  Respond(e.id, a.payload) in events)
  {
    RunAnswers(events);
    var answers := Run(events).answers;
    forall i, j | 0 <= i < j < |answers| ensures answers[i].channel != answers[j].channel {
      assert answers[i] in answers && answers[j] in answers;
    }
  }

  // ---------------------------------------------------------------------------------------------
  // What is forwarded and answered for sure

  /** The current id is at most one beyond all ids that occurred, and then nothing is stored. */
  ghost predicate UpToDate<R>(s: State<R>, events: seq<Event<R>>) {
    && (s.id == 0 || exists e :: e in events && s.id <= e.id + 1)
    && ((forall e :: e in events ==> e.id < s.id) ==> s.inner.Neither?)
  }

  lemma {:induction false} RunIsUpToDate<R>(events: seq<Event<R>>)
    ensures UpToDate(Run(events).state, events)
  {
    if events != [] {
      var n := |events| - 1;
      RunIsUpToDate(events[..n]);
      UpToDateStep(Run(events[..n]).state, events[..n], events[n]);
      assert events == events[..n] + [events[n]];
    }
  }

  lemma UpToDateStep<R>(s: State<R>, events: seq<Event<R>>, e: Event<R>)
    requires UpToDate(s, events)
    ensures UpToDate(Handle(s, e).state, events + [e])
  {
    var s' := Handle(s, e).state;
    assert e in events + [e];
    assert forall x :: x in events ==> x in events + [e];
    if s' == s && s.id != 0 {
      var x :| x in events && s.id <= x.id + 1;
      assert x in events + [e];
    }
  }

  /** A request with a greater id than all before it is forwarded. */
  lemma NewRequestIsForwarded<R>(before: seq<Event<R>>, id: RequestId, channel: ChannelId)
    requires forall e :: e in before ==> e.id < id
    ensures Run(before + [Request(id, channel)]).forwarded == Run(before).forwarded + [id]
    ensures Run(before + [Request(id, channel)]).state == State(id, Channel(channel))
  {
    RunIsUpToDate(before);
    var events := before + [Request(id, channel)];
    assert events[..|before|] == before;
  }

  /** Events with lower ids leave the matcher as it is. */
  lemma {:induction false} LowerIdsAreIgnored<R>(before: seq<Event<R>>, middle: seq<Event<R>>)
    requires forall e :: e in middle ==> e.id < Run(before).state.id
    ensures Run(before + middle) == Run(before)
    decreases |middle|
  {
    if middle == [] {
      assert before + middle == before;
    } else {
      var n := |middle| - 1;
      assert middle[n] in middle;
      assert forall e :: e in middle[..n] ==> e in middle;
      LowerIdsAreIgnored(before, middle[..n]);
      assert (before + middle)[..|before + middle| - 1] == before + middle[..n];
    }
  }

  /** Before its response comes, the current id is not beyond a request, and the current id holds no response. */
  lemma {:induction false} RequestsOnly<R>(before: seq<Event<R>>, id: RequestId)
    requires forall e :: e in before ==> e.id < id || (e.id == id && e.Request?)
    ensures Run(before).state.id <= id && (Run(before).state.id == id ==> !Run(before).state.inner.Response?)
  {
    if before != [] {
      var n := |before| - 1;
      assert before[n] in before;
      assert forall e :: e in before[..n] ==> e in before;
      RequestsOnly(before[..n], id);
    }
  }

  /**
   * The response to a request is sent on the channel of the last request with its id, when no
   * greater id and no other response came before it. Later events do not change that.
   */
  lemma ResponseAnswersRequest<R>(before: seq<Event<R>>, id: RequestId, channel: ChannelId, middle: seq<Event<R>>, payload: R,
                                  after: seq<Event<R>>)
    requires forall e :: e in before ==> e.id < id || (e.id == id && e.Request?)
    requires forall e :: e in middle ==> e.id < id
    ensures Answer(id, channel, payload) in Run(before + [Request(id, channel)] + middle + [Respond(id, payload)] + after).answers
  {
    RequestsOnly(before, id);
    var asked := before + [Request(id, channel)];
    assert asked[..|before|] == before;
    assert Run(asked).state == State(id, Channel(channel));
    LowerIdsAreIgnored(asked, middle);
    var all := asked + middle + [Respond(id, payload)];
    assert all[..|asked + middle|] == asked + middle;
    assert Answer(id, channel, payload) in Run(all).answers;
    AnswersAreFinal(all, after);
  }

  /** A single response that comes early answers the request it is for, which is not forwarded. */
  lemma EarlyResponseAnswersRequest<R>(before: seq<Event<R>>, id: RequestId, payload: R, middle: seq<Event<R>>, channel: ChannelId,
                                       after: seq<Event<R>>)
    requires forall e :: e in before + middle ==> e.id < id
    ensures Answer(id, channel, payload) in Run(before + [Respond(id, payload)] + middle + [Request(id, channel)] + after).answers
    ensures Run(before + [Respond(id, payload)] + middle + [Request(id, channel)]).forwarded == Run(before).forwarded
  {
    assert forall e :: e in before || e in middle ==> e in before + middle;
    RunIsUpToDate(before);
    var early := before + [Respond(id, payload)];
    assert early[..|before|] == before;
    assert Run(early).state == State(id, Response(payload));
    LowerIdsAreIgnored(early, middle);
    var all := early + middle + [Request(id, channel)];
    assert all[..|early + middle|] == early + middle;
    assert Answer(id, channel, payload) in Run(all).answers;
    AnswersAreFinal(all, after);
  }

  lemma {:induction false} AnswersAreFinal<R>(events: seq<Event<R>>, after: seq<Event<R>>)
    ensures forall a :: a in Run(events).answers ==> a in Run(events + after).answers
  {
    if after == [] {
      assert events + after == events;
    } else {
      var n := |after| - 1;
      AnswersAreFinal(events, after[..n]);
      assert (events + after)[..|events + after| - 1] == events + after[..n];
    }
  }

  // ---------------------------------------------------------------------------------------------
  // Repeated early responses

  function Repeated<R>(s: State<R>, payloads: seq<R>): State<R> {
    if payloads == [] then s
    else Handle(Repeated(s, payloads[..|payloads| - 1]), Respond(s.id, payloads[|payloads| - 1])).state
  }

  /** Responses that come before their request replace each other in pairs: an odd number leaves the last one stored. */
  lemma {:induction false} EarlyResponsesToggle<R>(id: RequestId, payloads: seq<R>)
    ensures Repeated(State(id, Neither), payloads)
            == State(id, if |payloads| % 2 == 1 then Response(payloads[|payloads| - 1]) else Neither)
  {
    if payloads != [] {
      EarlyResponsesToggle(id, payloads[..|payloads| - 1]);
    }
  }

  // ---------------------------------------------------------------------------------------------
  // The matcher as the program keeps it

  class ClientHandlerState<R> {
    var id: RequestId
    var inner: Inner<R>

    ghost function Now(): State<R>
      reads this
    {
      State(id, inner)
    }

    constructor ()
      ensures Now() == Initial()
    {
      id := 0;
      inner := Neither;
    }

    /** Hands over what is stored and leaves nothing. */
    method Take() returns (taken: Inner<R>)
      modifies this`inner
      ensures taken == old(inner) && inner == Neither
    {
      taken := inner;
      inner := Neither;
    }

    method NextId()
      modifies this`id
      ensures id == old(id) + 1
    {
      id := id + 1;
    }

    method Request(request: RequestId, channel: ChannelId) returns (forward: bool, answer: Option<Answer<R>>)
      modifies this
      ensures Outcome(Now(), forward, answer) == Handle(old(Now()), Event.Request(request, channel))
    {
      forward, answer := false, None;
      if request < id {
        return;
      } else if request == id {
        var taken := Take();
        match taken
        case Neither =>
          inner := Channel(channel);
          forward := true;
        case Channel(_) =>
          inner := Channel(channel);
        case Response(payload) =>
          answer := Some(Answer(request, channel, payload));
          NextId();
      } else {
        id, inner := request, Channel(channel);
        forward := true;
      }
    }

    method Response(request: RequestId, payload: R) returns (answer: Option<Answer<R>>)
      modifies this
      ensures Outcome(Now(), false, answer) == Handle(old(Now()), Respond(request, payload))
    {
      answer := None;
      if request < id {
        return;
      } else if request == id {
        var taken := Take();
        match taken
        case Neither =>
          inner := Inner.Response(payload);
        case Channel(channel) =>
          answer := Some(Answer(request, channel, payload));
          NextId();
        case Response(_) =>
      } else {
        id, inner := request, Inner.Response(payload);
      }
    }
  }
}
