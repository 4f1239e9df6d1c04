/**
 The bag evaluator: one pass over interleaved topics that counts, measures gaps and logs changes of the
 watched fields. The specification folds each topic alone.
 */
module BagEvaluator {
  import opened Messages
  import opened BagTopics
  import opened Sequences
  import opened StringOrder

  /** A categorical field value. */
  datatype Value = Number(n: int) | Flag(b: bool)

  /** A recorded message; an absent or None field is not in `fields`. */
  datatype Message = Message(topic: string, ts: Time, fields: map<string, Value>)

  datatype Summary = Summary(
    count: nat, first: Option<Time>, last: Option<Time>, maxGap: Duration, coverageGap: Duration)

  datatype Transition = Transition(topic: string, field: string, previous: Value, current: Value, ts: Time)

  datatype Evaluation = Evaluation(
    summaries: map<string, Summary>, transitions: seq<Transition>, missing: seq<string>, stale: seq<string>)

  const FRESH := Summary(0, None, None, 0, 0)

  // ---------------------------------------------------------------- one topic alone

  /** The messages of one topic, in order. */
  function Of(ms: seq<Message>, topic: string): seq<Message> {
    if ms == [] then []
    else
      var m := ms[|ms| - 1];
      Of(ms[..|ms| - 1], topic) + if m.topic == topic then [m] else []
  }

  /** The topics in order of first appearance. */
  function Topics(ms: seq<Message>): seq<string> {
    if ms == [] then []
    else
      var seen, t := Topics(ms[..|ms| - 1]), ms[|ms| - 1].topic;
      if t in seen then seen else seen + [t]
  }

  /** A summary after one more message of its topic. */
  function Noted(s: Summary, ts: Time): Summary {
    s.(count := s.count + 1,
       first := if s.first.None? then Some(ts) else s.first,
       maxGap := if s.last.Some? && ts - s.last.value > s.maxGap then ts - s.last.value else s.maxGap,
       last := Some(ts))
  }

  /** The summary of a topic recorded alone. */
  function Alone(ps: seq<Message>): (s: Summary)
    ensures s.last.Some? <==> ps != []
    ensures s.first.Some? <==> ps != []
    ensures s.coverageGap == 0
  {
    if ps == [] then FRESH else Noted(Alone(ps[..|ps| - 1]), ps[|ps| - 1].ts)
  }

  function Max(a: int, b: int): int { if a < b then b else a }

  function Min(a: int, b: int): int { if b < a then b else a }

  function MaxOf(xs: seq<int>): Option<int> {
    if xs == [] then None
    else match MaxOf(xs[..|xs| - 1])
      case None => Some(xs[|xs| - 1])
      case Some(m) => Some(Max(m, xs[|xs| - 1]))
  }

  function MinOf(xs: seq<int>): Option<int> {
    if xs == [] then None
    else match MinOf(xs[..|xs| - 1])
      case None => Some(xs[|xs| - 1])
      case Some(m) => Some(Min(m, xs[|xs| - 1]))
  }

  /** The largest of the inter-message gap, the leading silence and the trailing silence. */
  function CoverageGap(s: Summary, start: Option<Time>, end: Option<Time>): Duration {
    var leading := if start.Some? && s.first.Some? then Max(s.maxGap, s.first.value - start.value) else s.maxGap;
    if end.Some? && s.last.Some? then Max(leading, end.value - s.last.value) else leading
  }

  function WithCoverage(s: Summary, start: Option<Time>, end: Option<Time>): Summary {
    s.(coverageGap := CoverageGap(s, start, end))
  }

  function Firsts(ms: seq<Message>, topics: seq<string>): seq<Time> {
    if topics == [] then []
    else
      var first := Alone(Of(ms, topics[|topics| - 1])).first;
      Firsts(ms, topics[..|topics| - 1]) + if first.Some? then [first.value] else []
  }

  function Lasts(ms: seq<Message>, topics: seq<string>): seq<Time> {
    if topics == [] then []
    else
      var last := Alone(Of(ms, topics[|topics| - 1])).last;
      Lasts(ms, topics[..|topics| - 1]) + if last.Some? then [last.value] else []
  }

  function RecordingStart(ms: seq<Message>): Option<Time> { MinOf(Firsts(ms, Topics(ms))) }

  function RecordingEnd(ms: seq<Message>): Option<Time> { MaxOf(Lasts(ms, Topics(ms))) }

  function Covered(ms: seq<Message>, topic: string): Summary {
    WithCoverage(Alone(Of(ms, topic)), RecordingStart(ms), RecordingEnd(ms))
  }

  function Missing(required: seq<string>, observed: seq<string>): seq<string> {
    if required == [] then []
    else
      var r := required[|required| - 1];
      Missing(required[..|required| - 1], observed) + if Present(r, observed) then [] else [r]
  }

  function StaleAmong(summaries: map<string, Summary>, topics: seq<string>, maxGap: Duration): seq<string>
    requires forall t | t in topics :: t in summaries
  {
    if topics == [] then []
    else
      var t := topics[|topics| - 1];
      StaleAmong(summaries, topics[..|topics| - 1], maxGap) + if summaries[t].coverageGap > maxGap then [t] else []
  }

  // ---------------------------------------------------------------- transitions

  predicate Watches(topic: string, field: string) {
    field in WatchedFields(topic)
  }

  /** The newest value of a watched field. */
  function Latest(ms: seq<Message>, topic: string, field: string): Option<Value> {
    if ms == [] then None
    else
      var m := ms[|ms| - 1];
      if m.topic == topic && Watches(topic, field) && field in m.fields then Some(m.fields[field])
      else Latest(ms[..|ms| - 1], topic, field)
  }

  /** The change, if any, that a message makes to one watched field. */
  function Change(before: seq<Message>, m: Message, field: string): seq<Transition> {
    var prior := Latest(before, m.topic, field);
    if field in m.fields && prior.Some? && prior.value != m.fields[field]
    then [Transition(m.topic, field, prior.value, m.fields[field], m.ts)] else []
  }

  /** The changes a message makes to the given fields, in their order. */
  function Changes(before: seq<Message>, m: Message, fields: seq<string>): seq<Transition> {
    if fields == [] then []
    else Changes(before, m, fields[..|fields| - 1]) + Change(before, m, fields[|fields| - 1])
  }

  function Transitions(ms: seq<Message>): seq<Transition> {
    if ms == [] then []
    else
      var before, m := ms[..|ms| - 1], ms[|ms| - 1];
      Transitions(before) + Changes(before, m, WatchedFields(m.topic))
  }

  function Summaries(ms: seq<Message>): map<string, Summary> {
    map t | t in Topics(ms) :: Covered(ms, t)
  }

  /** The whole evaluation, each topic folded alone. */
  function Evaluate(ms: seq<Message>, required: seq<string>, maxGap: Duration): Evaluation {
    Evaluation(Summaries(ms), Transitions(ms), Missing(required, Topics(ms)),
               Sort(StaleAmong(Summaries(ms), Topics(ms), maxGap)))
  }

  // ---------------------------------------------------------------- what the lists hold

  /** The topics of the recording are those of its messages. */
  lemma {:induction false} TopicsAreThose(ms: seq<Message>, t: string)
    ensures t in Topics(ms) <==> exists m :: m in ms && m.topic == t
  {
    if ms == [] {
    } else {
      var front, last := ms[..|ms| - 1], ms[|ms| - 1];
      TopicsAreThose(front, t);
      assert forall m :: m in ms <==> m in front || m == last;
    }
  }

  /** The messages of one topic are those, in their order. */
  lemma {:induction false} OfIsFilter(ms: seq<Message>, t: string)
    ensures Of(ms, t) == Filter(ms, (m: Message) => m.topic == t)
  {
    if ms == [] {
    } else {
      OfIsFilter(ms[..|ms| - 1], t);
    }
  }

  /** The missing names are the required ones that no observed topic provides, in their order. */
  lemma {:induction false} MissingIsFilter(required: seq<string>, observed: seq<string>)
    ensures Missing(required, observed) == Filter(required, (r: string) => !Present(r, observed))
  {
    if required == [] {
    } else {
      MissingIsFilter(required[..|required| - 1], observed);
    }
  }

  /** Some message has a topic that provides the name. */
  ghost predicate Observed(ms: seq<Message>, required: string) {
    exists m :: m in ms && Names(m.topic, required)
  }

  lemma PresentIffObserved(ms: seq<Message>, required: string)
    ensures Present(required, Topics(ms)) <==> Observed(ms, required)
  {
    if Present(required, Topics(ms)) {
      var i :| 0 <= i < |Topics(ms)| && Provides(Topics(ms)[i], required);
      TopicsAreThose(ms, Topics(ms)[i]);
      ProvidesIff(Topics(ms)[i], required);
    }
    if m :| m in ms && Names(m.topic, required) {
      TopicsAreThose(ms, m.topic);
      ProvidesIff(m.topic, required);
      var i :| 0 <= i < |Topics(ms)| && Topics(ms)[i] == m.topic;
    }
  }

  /** A name is missing exactly if it is required and unobserved, and then as often as it is required. */
  lemma MissingIff(ms: seq<Message>, required: seq<string>, r: string)
    ensures r in Missing(required, Topics(ms)) <==> r in required && !Observed(ms, r)
    ensures multiset(Missing(required, Topics(ms)))[r] == if Observed(ms, r) then 0 else multiset(required)[r]
  {
    MissingIsFilter(required, Topics(ms));
    FilterCounts(required, (r: string) => !Present(r, Topics(ms)), r);
    PresentIffObserved(ms, r);
  }

  // ---------------------------------------------------------------- the one pass

  lemma {:induction false} TopicsHaveMessages(ms: seq<Message>, topic: string)
    ensures topic in Topics(ms) <==> Of(ms, topic) != []
  {
    if ms == [] {
    } else {
      TopicsHaveMessages(ms[..|ms| - 1], topic);
    }
  }

  ghost predicate EntryFollows(ms: seq<Message>, t: string, s: Summary, last: Time) {
    s == Alone(Of(ms, t)) && s.last == Some(last)
  }

  /** The pass has read `ms`, and its tables say so. */
  ghost predicate TablesFollow(
    ms: seq<Message>, order: seq<string>, summaries: map<string, Summary>, last: map<string, Time>)
  {
    && order == Topics(ms)
    && summaries.Keys == (set t | t in order) == last.Keys
    && (forall t | t in summaries :: EntryFollows(ms, t, summaries[t], last[t]))
  }

  lemma ReadOneMore(before: seq<Message>, m: Message, t: string)
    ensures Alone(Of(before + [m], t))
            == if t == m.topic then Noted(Alone(Of(before, t)), m.ts) else Alone(Of(before, t))
  {
    assert (before + [m])[..|before|] == before;
    if t == m.topic {
      assert Of(before + [m], t)[..|Of(before, t)|] == Of(before, t);
    } else {
      assert Of(before + [m], t) == Of(before, t);
    }
  }

  lemma TopicsOneMore(before: seq<Message>, m: Message)
    ensures Topics(before + [m]) == if m.topic in Topics(before) then Topics(before) else Topics(before) + [m.topic]
  {}

  lemma EntryOneMore(before: seq<Message>, m: Message, t: string, s: Summary, last: Time)
    requires if t == m.topic then s == Noted(Alone(Of(before, t)), m.ts) && last == m.ts
             else EntryFollows(before, t, s, last)
    ensures EntryFollows(before + [m], t, s, last)
  {
    ReadOneMore(before, m, t);
  }

  lemma KeysOneMore(order: seq<string>, t: string)
    ensures var longer := if t in order then order else order + [t];
      (set u | u in longer) == (set u | u in order) + {t}
  {}

  lemma TablesOneMore(
    before: seq<Message>, m: Message,
    order: seq<string>, summaries: map<string, Summary>, last: map<string, Time>, s: Summary)
    requires TablesFollow(before, order, summaries, last)
    requires s == Noted(Alone(Of(before, m.topic)), m.ts)
    ensures TablesFollow(
      before + [m], if m.topic in order then order else order + [m.topic],
      summaries[m.topic := s], last[m.topic := m.ts])
  {
    TopicsOneMore(before, m);
    KeysOneMore(order, m.topic);
    var summaries', last' := summaries[m.topic := s], last[m.topic := m.ts];
    assert summaries'.Keys == summaries.Keys + {m.topic} == last'.Keys;
    forall t | t in summaries' ensures EntryFollows(before + [m], t, summaries'[t], last'[t]) {
      EntryOneMore(before, m, t, summaries'[t], last'[t]);
    }
  }

  /** A topic's summary takes in one more timestamp. */
  method Note(s0: Summary, last: Option<Time>, ts: Time) returns (s: Summary)
    requires s0.last == last
    ensures s == Noted(s0, ts)
  {
    s := s0.(count := s0.count + 1);
    if s.first.None? { s := s.(first := Some(ts)); }
    if last.Some? {
      var gap := ts - last.value;
      if gap > s.maxGap { s := s.(maxGap := gap); }
    }
    s := s.(last := Some(ts));
  }

  /** The body of the loop for one message: counts, first and last time, and the gap. */
  method NoteMessage(
    ghost before: seq<Message>, m: Message,
    order0: seq<string>, summaries0: map<string, Summary>, last0: map<string, Time>)
    returns (order: seq<string>, summaries: map<string, Summary>, last: map<string, Time>)
    requires TablesFollow(before, order0, summaries0, last0)
    ensures TablesFollow(before + [m], order, summaries, last)
  {
    TopicsHaveMessages(before, m.topic);
    order := order0;
    var s := FRESH;
    if m.topic in summaries0 { s := summaries0[m.topic]; } else { order := order + [m.topic]; }
    assert s == Alone(Of(before, m.topic));
    s := Note(s, if m.topic in last0 then Some(last0[m.topic]) else None, m.ts);
    last := last0[m.topic := m.ts];
    summaries := summaries0[m.topic := s];
    TablesOneMore(before, m, order0, summaries0, last0, s);
  }

  /** The table of previous values follows what has been read. */
  ghost predicate ValuesFollow(ms: seq<Message>, values: map<(string, string), Value>) {
    forall t, f :: Latest(ms, t, f) == if (t, f) in values then Some(values[(t, f)]) else None
  }

  /** The table follows `before` and the first fields of `m`. */
  ghost predicate PartlyNoted(
    before: seq<Message>, m: Message, done: seq<string>, values: map<(string, string), Value>)
  {
    forall t, f ::
      (if (t, f) in values then Some(values[(t, f)]) else None)
      == if t == m.topic && f in done && f in m.fields then Some(m.fields[f]) else Latest(before, t, f)
  }

  method NoteField(
    ghost before: seq<Message>, m: Message, ghost done: seq<string>, f: string,
    values0: map<(string, string), Value>)
    returns (change: seq<Transition>, values: map<(string, string), Value>)
    requires f !in done && PartlyNoted(before, m, done, values0)
    ensures change == Change(before, m, f)
    ensures PartlyNoted(before, m, done + [f], values)
  {
    change, values := [], values0;
    var key := (m.topic, f);
    assert Latest(before, m.topic, f) == if key in values then Some(values[key]) else None;
    if f !in m.fields { return; }
    var current := m.fields[f];
    if key in values && values[key] != current {
      change := [Transition(m.topic, f, values[key], current, m.ts)];
    }
    values := values[key := current];
  }

  lemma AllNoted(before: seq<Message>, m: Message, values: map<(string, string), Value>)
    requires PartlyNoted(before, m, WatchedFields(m.topic), values)
    ensures ValuesFollow(before + [m], values)
  {}

  method NoteFields(ghost before: seq<Message>, m: Message, values0: map<(string, string), Value>)
    returns (changes: seq<Transition>, values: map<(string, string), Value>)
    requires ValuesFollow(before, values0)
    ensures changes == Changes(before, m, WatchedFields(m.topic))
    ensures ValuesFollow(before + [m], values)
  {
    changes, values := [], values0;
    var fields := WatchedFields(m.topic);
    WatchedFieldsDistinct(m.topic);
    for k := 0 to |fields|
      invariant changes == Changes(before, m, fields[..k])
      invariant PartlyNoted(before, m, fields[..k], values)
    {
      assert fields[..k + 1] == fields[..k] + [fields[k]];
      assert (fields[..k] + [fields[k]])[..k] == fields[..k];
      var change;
      change, values := NoteField(before, m, fields[..k], fields[k], values);
      changes := changes + change;
    }
    assert fields[..|fields|] == fields;
    AllNoted(before, m, values);
  }

  lemma WindowOneMore(ms: seq<Message>, topics: seq<string>, t: string, s: Summary)
    requires s == Alone(Of(ms, t))
    ensures Firsts(ms, topics + [t]) == Firsts(ms, topics) + if s.first.Some? then [s.first.value] else []
    ensures Lasts(ms, topics + [t]) == Lasts(ms, topics) + if s.last.Some? then [s.last.value] else []
  {}

  method CollectWindow(ghost ms: seq<Message>, order: seq<string>, summaries: map<string, Summary>)
    returns (firsts: seq<Time>, lasts: seq<Time>)
    requires forall t | t in order :: t in summaries && summaries[t] == Alone(Of(ms, t))
    ensures firsts == Firsts(ms, order) && lasts == Lasts(ms, order)
  {
    firsts, lasts := [], [];
    for i := 0 to |order|
      invariant firsts == Firsts(ms, order[..i]) && lasts == Lasts(ms, order[..i])
    {
      var s := summaries[order[i]];
      WindowOneMore(ms, order[..i], order[i], s);
      assert order[..i + 1] == order[..i] + [order[i]];
      if s.first.Some? { firsts := firsts + [s.first.value]; }
      if s.last.Some? { lasts := lasts + [s.last.value]; }
    }
    assert order[..|order|] == order;
  }

  method CoverAll(order: seq<string>, alone: map<string, Summary>, start: Option<Time>, end: Option<Time>)
    returns (summaries: map<string, Summary>)
    requires alone.Keys == (set t | t in order)
    ensures summaries == map t | t in alone :: WithCoverage(alone[t], start, end)
  {
    summaries := alone;
    for i := 0 to |order|
      invariant summaries.Keys == alone.Keys
      invariant forall t | t in alone ::
        summaries[t] == if t in order[..i] then WithCoverage(alone[t], start, end) else alone[t]
    {
      var t, s := order[i], summaries[order[i]];
      assert order[..i + 1] == order[..i] + [t];
      summaries := summaries[t := WithCoverage(s, start, end)];
    }
    assert order[..|order|] == order;
  }

  method ListStale(order: seq<string>, summaries: map<string, Summary>, maxGap: Duration)
    returns (stale: seq<string>)
    requires forall t | t in order :: t in summaries
    ensures stale == Sort(StaleAmong(summaries, order, maxGap))
  {
    stale := [];
    for i := 0 to |order|
      invariant stale == StaleAmong(summaries, order[..i], maxGap)
    {
      assert order[..i + 1][..i] == order[..i];
      if summaries[order[i]].coverageGap > maxGap { stale := stale + [order[i]]; }
    }
    assert order[..|order|] == order;
    stale := Sort(stale);
  }

  method ListMissing(required: seq<string>, observed: seq<string>) returns (missing: seq<string>)
    ensures missing == Missing(required, observed)
  {
    missing := [];
    for i := 0 to |required|
      invariant missing == Missing(required[..i], observed)
    {
      assert required[..i + 1][..i] == required[..i];
      if !Present(required[i], observed) { missing := missing + [required[i]]; }
    }
    assert required[..|required|] == required;
  }

  lemma TransitionsOneMore(before: seq<Message>, m: Message)
    ensures Transitions(before + [m]) == Transitions(before) + Changes(before, m, WatchedFields(m.topic))
  {}

  /** The loop over all messages. */
  method ReadAll(messages: seq<Message>)
    returns (order: seq<string>, summaries: map<string, Summary>, last: map<string, Time>, transitions: seq<Transition>)
    ensures TablesFollow(messages, order, summaries, last)
    ensures transitions == Transitions(messages)
  {
    order, summaries, last, transitions := [], map[], map[], [];
    var values: map<(string, string), Value> := map[];
    for i := 0 to |messages|
      invariant TablesFollow(messages[..i], order, summaries, last)
      invariant transitions == Transitions(messages[..i])
      invariant ValuesFollow(messages[..i], values)
    {
      assert messages[..i + 1] == messages[..i] + [messages[i]];
      TransitionsOneMore(messages[..i], messages[i]);
      order, summaries, last := NoteMessage(messages[..i], messages[i], order, summaries, last);
      var changes;
      changes, values := NoteFields(messages[..i], messages[i], values);
      transitions := transitions + changes;
    }
    assert messages[..|messages|] == messages;
  }

  lemma TablesGiveSummaries(
    ms: seq<Message>, order: seq<string>, alone: map<string, Summary>, last: map<string, Time>)
    requires TablesFollow(ms, order, alone, last)
    ensures (map t | t in alone :: WithCoverage(alone[t], RecordingStart(ms), RecordingEnd(ms))) == Summaries(ms)
  {}

  /** The evaluator's single pass computes the topic-by-topic evaluation. */
  method SummarizeTopicFreshness(messages: seq<Message>, required: seq<string>, maxGap: Duration)
    returns (result: Evaluation)
    ensures result == Evaluate(messages, required, maxGap)
    ensures forall r :: r in result.missing <==> r in required && !Observed(messages, r)
    ensures forall r ::
      multiset(result.missing)[r] == if Observed(messages, r) then 0 else multiset(required)[r]
    ensures IsSubsequence(result.missing, required)
  {
    var order, alone, last, transitions := ReadAll(messages);
    var missing := ListMissing(required, order);
    var firsts, lasts := CollectWindow(messages, order, alone);
    var summaries := CoverAll(order, alone, MinOf(firsts), MaxOf(lasts));
    TablesGiveSummaries(messages, order, alone, last);
    var stale := ListStale(order, summaries, maxGap);
    result := Evaluation(summaries, transitions, missing, stale);
    forall r
      ensures r in missing <==> r in required && !Observed(messages, r)
      ensures multiset(missing)[r] == if Observed(messages, r) then 0 else multiset(required)[r]
    {
      MissingIff(messages, required, r);
    }
    MissingIsFilter(required, order);
    FilterIsSubsequence(required, (r: string) => !Present(r, order));
  }
}
