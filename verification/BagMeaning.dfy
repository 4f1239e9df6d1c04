/** What a bag evaluation means: silences, independence of interleaving, and lossless change logs. */
module BagMeaning {
  import opened Messages
  import opened BagTopics
  import opened BagEvaluator
  import opened Sequences
  import opened StringOrder

  // ---------------------------------------------------------------- one topic's numbers

  /** The timestamps of one topic never go back. */
  ghost predicate Monotone(ps: seq<Message>) {
    forall i, j | 0 <= i <= j < |ps| :: ps[i].ts <= ps[j].ts
  }

  lemma {:induction false} AloneTells(ps: seq<Message>)
    requires ps != []
    ensures var s := Alone(ps);
      s.count == |ps| && s.first == Some(ps[0].ts) && s.last == Some(ps[|ps| - 1].ts)
    ensures forall i | 0 <= i < |ps| - 1 :: ps[i + 1].ts - ps[i].ts <= Alone(ps).maxGap
    ensures Alone(ps).maxGap == 0
            || exists i | 0 <= i < |ps| - 1 :: ps[i + 1].ts - ps[i].ts == Alone(ps).maxGap
    ensures Alone(ps).maxGap >= 0
  {
    var front := ps[..|ps| - 1];
    if front == [] {
    } else {
      AloneTells(front);
      assert forall i | 0 <= i < |front| :: front[i] == ps[i];
    }
  }

  /** Every topic that was recorded, and no other, has a summary: of its own messages, in their order. */
  lemma SummariesTell(ms: seq<Message>, t: string)
    ensures t in Summaries(ms) <==> exists m :: m in ms && m.topic == t
    ensures t in Summaries(ms) ==>
      && Of(ms, t) != []
      && Summaries(ms)[t].count == |Of(ms, t)|
      && Summaries(ms)[t].first == Some(Of(ms, t)[0].ts)
      && Summaries(ms)[t].last == Some(Of(ms, t)[|Of(ms, t)| - 1].ts)
      && Summaries(ms)[t].maxGap == Alone(Of(ms, t)).maxGap
    ensures IsSubsequence(Of(ms, t), ms)
    ensures forall m :: multiset(Of(ms, t))[m] == if m.topic == t then multiset(ms)[m] else 0
  {
    TopicsAreThose(ms, t);
    TopicsHaveMessages(ms, t);
    OfIsFilter(ms, t);
    var keep := (m: Message) => m.topic == t;
    FilterIsSubsequence(ms, keep);
    forall m ensures multiset(Of(ms, t))[m] == if m.topic == t then multiset(ms)[m] else 0 {
      FilterCounts(ms, keep, m);
    }
    if t in Topics(ms) { AloneTells(Of(ms, t)); }
  }

  // ---------------------------------------------------------------- the recording window

  lemma {:induction false} MinOfIsLeast(xs: seq<int>)
    requires xs != []
    ensures MinOf(xs).Some? && MinOf(xs).value in xs && forall x | x in xs :: MinOf(xs).value <= x
  {
    if |xs| == 1 {
    } else {
      MinOfIsLeast(xs[..|xs| - 1]);
    }
    assert xs == xs[..|xs| - 1] + [xs[|xs| - 1]];
  }

  lemma {:induction false} MaxOfIsGreatest(xs: seq<int>)
    requires xs != []
    ensures MaxOf(xs).Some? && MaxOf(xs).value in xs && forall x | x in xs :: x <= MaxOf(xs).value
  {
    if |xs| == 1 {
    } else {
      MaxOfIsGreatest(xs[..|xs| - 1]);
    }
    assert xs == xs[..|xs| - 1] + [xs[|xs| - 1]];
  }

  lemma InsideWindow(firsts: seq<Time>, lasts: seq<Time>, a: Time, b: Time)
    requires a in firsts && b in lasts
    ensures MinOf(firsts).Some? && MinOf(firsts).value <= a && MaxOf(lasts).Some? && b <= MaxOf(lasts).value
  {}

  ghost predicate BeginsAt(ps: seq<Message>, x: Time) {
    ps != [] && ps[0].ts == x
  }

  ghost predicate EndsAt(ps: seq<Message>, x: Time) {
    ps != [] && ps[|ps| - 1].ts == x
  }

  /** The listed times are exactly the first and last times of the listed topics. */
  lemma {:induction false} FirstIsListed(ms: seq<Message>, topics: seq<string>, t: string, x: Time)
    requires t in topics && BeginsAt(Of(ms, t), x)
    ensures x in Firsts(ms, topics)
  {
    var front, last := topics[..|topics| - 1], topics[|topics| - 1];
    assert topics == front + [last];
    if last == t { AloneTells(Of(ms, t)); } else { FirstIsListed(ms, front, t, x); }
  }

  lemma {:induction false} FirstListed(ms: seq<Message>, topics: seq<string>, x: Time) returns (t: string)
    requires x in Firsts(ms, topics)
    ensures t in topics && BeginsAt(Of(ms, t), x)
  {
    var front, last := topics[..|topics| - 1], topics[|topics| - 1];
    assert topics == front + [last];
    if x in Firsts(ms, front) {
      t := FirstListed(ms, front, x);
    } else {
      t := last;
      AloneTells(Of(ms, t));
    }
  }

  lemma {:induction false} LastIsListed(ms: seq<Message>, topics: seq<string>, t: string, x: Time)
    requires t in topics && EndsAt(Of(ms, t), x)
    ensures x in Lasts(ms, topics)
  {
    var front, last := topics[..|topics| - 1], topics[|topics| - 1];
    assert topics == front + [last];
    if last == t { AloneTells(Of(ms, t)); } else { LastIsListed(ms, front, t, x); }
  }

  lemma {:induction false} LastListed(ms: seq<Message>, topics: seq<string>, x: Time) returns (t: string)
    requires x in Lasts(ms, topics)
    ensures t in topics && EndsAt(Of(ms, t), x)
  {
    var front, last := topics[..|topics| - 1], topics[|topics| - 1];
    assert topics == front + [last];
    if x in Lasts(ms, front) {
      t := LastListed(ms, front, x);
    } else {
      t := last;
      AloneTells(Of(ms, t));
    }
  }

  // ---------------------------------------------------------------- coverage is the longest silence

  /** No message of the topic lies strictly between `a` and `b`. */
  ghost predicate SilentBetween(ps: seq<Message>, a: Time, b: Time) {
    forall i | 0 <= i < |ps| :: !(a < ps[i].ts < b)
  }

  ghost predicate Silence(ps: seq<Message>, start: Time, end: Time, a: Time, b: Time) {
    start <= a <= b <= end && SilentBetween(ps, a, b)
  }

  /** A silence with messages on both sides is no longer than some gap. */
  lemma {:induction false} InnerSilence(ps: seq<Message>, a: Time, b: Time)
    requires ps != [] && a < b && SilentBetween(ps, a, b)
    requires ps[0].ts <= a && b <= ps[|ps| - 1].ts
    ensures b - a <= Alone(ps).maxGap
  {
    var front := ps[..|ps| - 1];
    AloneTells(ps);
    var before := ps[|ps| - 2];
    if b <= before.ts {
      InnerSilence(front, a, b);
    }
  }

  lemma SilenceIsCovered(ps: seq<Message>, start: Time, end: Time, a: Time, b: Time)
    requires ps != [] && Monotone(ps) && Silence(ps, start, end, a, b)
    ensures b - a <= CoverageGap(Alone(ps), Some(start), Some(end))
  {
    AloneTells(ps);
    if a < b && ps[0].ts <= a && b <= ps[|ps| - 1].ts { InnerSilence(ps, a, b); }
  }

  lemma CoverageIsASilence(ps: seq<Message>, start: Time, end: Time)
    requires ps != [] && Monotone(ps) && start <= ps[0].ts && ps[|ps| - 1].ts <= end
    ensures exists a, b :: Silence(ps, start, end, a, b) && b - a == CoverageGap(Alone(ps), Some(start), Some(end))
  {
    AloneTells(ps);
    var s, gap := Alone(ps), CoverageGap(Alone(ps), Some(start), Some(end));
    if gap == ps[0].ts - start {
      assert Silence(ps, start, end, start, ps[0].ts);
    } else if gap == end - ps[|ps| - 1].ts {
      assert Silence(ps, start, end, ps[|ps| - 1].ts, end);
    } else {
      var i :| 0 <= i < |ps| - 1 && ps[i + 1].ts - ps[i].ts == s.maxGap;
      assert Silence(ps, start, end, ps[i].ts, ps[i + 1].ts);
    }
  }

  /** The bag's timestamps never go back within a topic. */
  ghost predicate TopicwiseMonotone(ms: seq<Message>) {
    forall t :: Monotone(Of(ms, t))
  }

  lemma WindowHolds(ms: seq<Message>, t: string, a: Time, b: Time)
    requires t in Topics(ms) && BeginsAt(Of(ms, t), a) && EndsAt(Of(ms, t), b)
    ensures RecordingStart(ms).Some? && RecordingStart(ms).value <= a
    ensures RecordingEnd(ms).Some? && b <= RecordingEnd(ms).value
  {
    FirstIsListed(ms, Topics(ms), t, a);
    LastIsListed(ms, Topics(ms), t, b);
    InsideWindow(Firsts(ms, Topics(ms)), Lasts(ms, Topics(ms)), a, b);
  }

  /** The window is that of all messages, and every topic lies in it. */
  lemma WindowHoldsTopic(ms: seq<Message>, t: string)
    requires t in Topics(ms)
    ensures RecordingStart(ms).Some? && RecordingEnd(ms).Some? && Of(ms, t) != []
    ensures RecordingStart(ms).value <= Of(ms, t)[0].ts
    ensures Of(ms, t)[|Of(ms, t)| - 1].ts <= RecordingEnd(ms).value
  {
    TopicsHaveMessages(ms, t);
    WindowHolds(ms, t, Of(ms, t)[0].ts, Of(ms, t)[|Of(ms, t)| - 1].ts);
  }

  /**
   The reported coverage gap of a topic is the length of its longest silence inside the recording: no
   silence is longer, and one is that long.
   */
  lemma {:induction false} CoverageIsLongestSilence(ms: seq<Message>, t: string)
    requires TopicwiseMonotone(ms) && t in Topics(ms)
    ensures RecordingStart(ms).Some? && RecordingEnd(ms).Some?
    ensures var gap, start, end := Covered(ms, t).coverageGap, RecordingStart(ms).value, RecordingEnd(ms).value;
      && (forall a, b | Silence(Of(ms, t), start, end, a, b) :: b - a <= gap)
      && (exists a, b :: Silence(Of(ms, t), start, end, a, b) && b - a == gap)
  {
    WindowHoldsTopic(ms, t);
    var ps, start, end := Of(ms, t), RecordingStart(ms).value, RecordingEnd(ms).value;
    assert Monotone(ps);
    forall a, b | Silence(ps, start, end, a, b) ensures b - a <= Covered(ms, t).coverageGap {
      SilenceIsCovered(ps, start, end, a, b);
    }
    CoverageIsASilence(ps, start, end);
  }

  lemma {:induction false} StaleAmongIff(
    summaries: map<string, Summary>, topics: seq<string>, maxGap: Duration, t: string)
    requires forall u | u in topics :: u in summaries
    ensures t in StaleAmong(summaries, topics, maxGap) <==> t in topics && summaries[t].coverageGap > maxGap
  {
    if topics == [] {
    } else {
      assert topics == topics[..|topics| - 1] + [topics[|topics| - 1]];
      StaleAmongIff(summaries, topics[..|topics| - 1], maxGap, t);
    }
  }

  /** A topic is reported stale exactly when the recording holds a silence of it longer than allowed. */
  lemma {:induction false} StaleIff(ms: seq<Message>, required: seq<string>, maxGap: Duration, t: string)
    requires TopicwiseMonotone(ms)
    ensures t in Evaluate(ms, required, maxGap).stale
            <==> t in Topics(ms) && RecordingStart(ms).Some? && RecordingEnd(ms).Some?
                 && exists a, b ::
                      Silence(Of(ms, t), RecordingStart(ms).value, RecordingEnd(ms).value, a, b) && b - a > maxGap
  {
    SortWorks(StaleAmong(Summaries(ms), Topics(ms), maxGap));
    StaleAmongIff(Summaries(ms), Topics(ms), maxGap, t);
    if t in Topics(ms) {
      CoverageIsLongestSilence(ms, t);
      assert Summaries(ms)[t] == Covered(ms, t);
    }
  }

  // ---------------------------------------------------------------- interleaving does not matter

  /** The two bags hold the same messages of each topic, in the same order. */
  ghost predicate SameTopicwise(ms: seq<Message>, ns: seq<Message>) {
    forall t :: Of(ms, t) == Of(ns, t)
  }

  lemma SameTopics(ms: seq<Message>, ns: seq<Message>, t: string)
    requires SameTopicwise(ms, ns)
    ensures t in Topics(ms) <==> t in Topics(ns)
  {
    TopicsHaveMessages(ms, t);
    TopicsHaveMessages(ns, t);
  }

  lemma SameFirsts(ms: seq<Message>, ns: seq<Message>, x: Time)
    requires SameTopicwise(ms, ns) && x in Firsts(ms, Topics(ms))
    ensures x in Firsts(ns, Topics(ns))
  {
    var t := FirstListed(ms, Topics(ms), x);
    SameTopics(ms, ns, t);
    FirstIsListed(ns, Topics(ns), t, x);
  }

  lemma SameLasts(ms: seq<Message>, ns: seq<Message>, x: Time)
    requires SameTopicwise(ms, ns) && x in Lasts(ms, Topics(ms))
    ensures x in Lasts(ns, Topics(ns))
  {
    var t := LastListed(ms, Topics(ms), x);
    SameTopics(ms, ns, t);
    LastIsListed(ns, Topics(ns), t, x);
  }

  lemma WindowOfSame(xs: seq<int>, ys: seq<int>)
    requires forall x :: x in xs <==> x in ys
    ensures MinOf(xs) == MinOf(ys) && MaxOf(xs) == MaxOf(ys)
  {
    var x, y := if xs == [] then 0 else xs[0], if ys == [] then 0 else ys[0];
    assert xs != [] ==> x in xs;
    assert ys != [] ==> y in ys;
    if xs != [] && ys != [] {
      MinOfIsLeast(xs);
      MaxOfIsGreatest(xs);
      MinOfIsLeast(ys);
      MaxOfIsGreatest(ys);
    }
  }

  lemma SameWindow(ms: seq<Message>, ns: seq<Message>)
    requires SameTopicwise(ms, ns)
    ensures RecordingStart(ms) == RecordingStart(ns) && RecordingEnd(ms) == RecordingEnd(ns)
  {
    forall x ensures x in Firsts(ms, Topics(ms)) <==> x in Firsts(ns, Topics(ns)) {
      if x in Firsts(ms, Topics(ms)) { SameFirsts(ms, ns, x); }
      if x in Firsts(ns, Topics(ns)) { SameFirsts(ns, ms, x); }
    }
    forall x ensures x in Lasts(ms, Topics(ms)) <==> x in Lasts(ns, Topics(ns)) {
      if x in Lasts(ms, Topics(ms)) { SameLasts(ms, ns, x); }
      if x in Lasts(ns, Topics(ns)) { SameLasts(ns, ms, x); }
    }
    WindowOfSame(Firsts(ms, Topics(ms)), Firsts(ns, Topics(ns)));
    WindowOfSame(Lasts(ms, Topics(ms)), Lasts(ns, Topics(ns)));
  }

  lemma SameSummaries(ms: seq<Message>, ns: seq<Message>)
    requires SameTopicwise(ms, ns)
    ensures Summaries(ms) == Summaries(ns)
  {
    SameWindow(ms, ns);
    forall t ensures t in Topics(ms) <==> t in Topics(ns) { SameTopics(ms, ns, t); }
    assert forall t :: Covered(ms, t) == Covered(ns, t);
  }

  lemma {:induction false} SameMissing(required: seq<string>, xs: seq<string>, ys: seq<string>)
    requires SameElements(xs, ys)
    ensures Missing(required, xs) == Missing(required, ys)
  {
    if required == [] {
    } else {
      SameMissing(required[..|required| - 1], xs, ys);
      SamePresence(required[|required| - 1], xs, ys);
      SamePresence(required[|required| - 1], ys, xs);
    }
  }

  lemma SamePresence(required: string, xs: seq<string>, ys: seq<string>)
    requires SameElements(xs, ys)
    ensures Present(required, xs) ==> Present(required, ys)
  {
    if Present(required, xs) {
      var i :| 0 <= i < |xs| && Provides(xs[i], required);
      assert xs[i] in ys;
    }
  }

  // ---------------------------------------------------------------- change logs

  /** A value with the time of its message. */
  datatype Sample = Sample(value: Value, ts: Time)

  /** The values one field takes along the messages of a topic. */
  function Samples(ps: seq<Message>, field: string): seq<Sample> {
    if ps == [] then []
    else
      var m := ps[|ps| - 1];
      Samples(ps[..|ps| - 1], field) + if field in m.fields then [Sample(m.fields[field], m.ts)] else []
  }

  /** The run-length encoding of a sequence of values: one event per change. */
  function ChangeLog(topic: string, field: string, vs: seq<Sample>): seq<Transition> {
    if |vs| < 2 then []
    else
      var before, last := vs[|vs| - 2], vs[|vs| - 1];
      ChangeLog(topic, field, vs[..|vs| - 1])
      + if before.value != last.value then [Transition(topic, field, before.value, last.value, last.ts)] else []
  }

  /** The events of one field, in order. */
  function EventsOf(log: seq<Transition>, topic: string, field: string): seq<Transition> {
    if log == [] then []
    else
      var e := log[|log| - 1];
      EventsOf(log[..|log| - 1], topic, field) + if e.topic == topic && e.field == field then [e] else []
  }

  lemma {:induction false} EventsOfConcat(a: seq<Transition>, b: seq<Transition>, topic: string, field: string)
    ensures EventsOf(a + b, topic, field) == EventsOf(a, topic, field) + EventsOf(b, topic, field)
  {
    if b == [] {
      assert a + b == a;
    } else {
      assert (a + b)[..|a + b| - 1] == a + b[..|b| - 1];
      EventsOfConcat(a, b[..|b| - 1], topic, field);
    }
  }

  lemma {:induction false} LatestIsLastSample(ms: seq<Message>, topic: string, field: string)
    requires Watches(topic, field)
    ensures var vs := Samples(Of(ms, topic), field);
      Latest(ms, topic, field) == if vs == [] then None else Some(vs[|vs| - 1].value)
  {
    if ms == [] {
    } else {
      var before, m := ms[..|ms| - 1], ms[|ms| - 1];
      LatestIsLastSample(before, topic, field);
      if m.topic == topic { assert Of(ms, topic)[..|Of(before, topic)|] == Of(before, topic); }
      else { assert Of(ms, topic) == Of(before, topic); }
    }
  }

  lemma EventsOfChange(before: seq<Message>, m: Message, f: string, topic: string, field: string)
    ensures EventsOf(Change(before, m, f), topic, field)
            == if m.topic == topic && f == field then Change(before, m, f) else []
  {}

  lemma {:induction false} ChangesOfField(
    before: seq<Message>, m: Message, fields: seq<string>, topic: string, field: string)
    requires forall i, j | 0 <= i < j < |fields| :: fields[i] != fields[j]
    ensures EventsOf(Changes(before, m, fields), topic, field)
            == if m.topic == topic && field in fields then Change(before, m, field) else []
  {
    if fields == [] {
    } else {
      var front, f := fields[..|fields| - 1], fields[|fields| - 1];
      assert fields == front + [f];
      ChangesOfField(before, m, front, topic, field);
      EventsOfConcat(Changes(before, m, front), Change(before, m, f), topic, field);
      EventsOfChange(before, m, f, topic, field);
      if f == field { assert field !in front; }
    }
  }

  lemma SamplesOneMore(ms: seq<Message>, topic: string, field: string)
    requires ms != []
    ensures var before, m := ms[..|ms| - 1], ms[|ms| - 1];
      Samples(Of(ms, topic), field)
      == Samples(Of(before, topic), field)
         + if m.topic == topic && field in m.fields then [Sample(m.fields[field], m.ts)] else []
  {
    var before, m := ms[..|ms| - 1], ms[|ms| - 1];
    if m.topic == topic { assert Of(ms, topic)[..|Of(before, topic)|] == Of(before, topic); }
    else { assert Of(ms, topic) == Of(before, topic); }
  }

  lemma LogOneMore(topic: string, field: string, vs: seq<Sample>, v: Sample)
    ensures ChangeLog(topic, field, vs + [v])
            == ChangeLog(topic, field, vs)
               + if vs != [] && vs[|vs| - 1].value != v.value
                 then [Transition(topic, field, vs[|vs| - 1].value, v.value, v.ts)] else []
  {}

  /** The run-length encoding of a field alone; nothing for a field that is not watched. */
  function FieldLog(ms: seq<Message>, topic: string, field: string): seq<Transition> {
    if Watches(topic, field) then ChangeLog(topic, field, Samples(Of(ms, topic), field)) else []
  }

  /** One message extends a field's run-length encoding by exactly its change. */
  lemma FieldLogOneMore(ms: seq<Message>, topic: string, field: string)
    requires ms != []
    ensures var before, m := ms[..|ms| - 1], ms[|ms| - 1];
      FieldLog(ms, topic, field)
      == FieldLog(before, topic, field)
         + if m.topic == topic && Watches(topic, field) then Change(before, m, field) else []
  {
    var before, m := ms[..|ms| - 1], ms[|ms| - 1];
    var vs := Samples(Of(before, topic), field);
    SamplesOneMore(ms, topic, field);
    if Watches(topic, field) {
      LatestIsLastSample(before, topic, field);
      if m.topic == topic && field in m.fields {
        LogOneMore(topic, field, vs, Sample(m.fields[field], m.ts));
      } else {
        assert vs + [] == vs;
      }
    }
  }

  lemma EventsOneMore(ms: seq<Message>, topic: string, field: string)
    requires ms != []
    ensures var before, m := ms[..|ms| - 1], ms[|ms| - 1];
      EventsOf(Transitions(ms), topic, field)
      == EventsOf(Transitions(before), topic, field)
         + if m.topic == topic && Watches(topic, field) then Change(before, m, field) else []
  {
    var before, m := ms[..|ms| - 1], ms[|ms| - 1];
    WatchedFieldsDistinct(m.topic);
    EventsOfConcat(Transitions(before), Changes(before, m, WatchedFields(m.topic)), topic, field);
    ChangesOfField(before, m, WatchedFields(m.topic), topic, field);
  }

  /** The one-pass log, seen through one field, is the run-length encoding of that field alone. */
  lemma {:induction false} LogIsFieldwise(ms: seq<Message>, topic: string, field: string)
    ensures EventsOf(Transitions(ms), topic, field) == FieldLog(ms, topic, field)
  {
    if ms == [] {
    } else {
      LogIsFieldwise(ms[..|ms| - 1], topic, field);
      EventsOneMore(ms, topic, field);
      FieldLogOneMore(ms, topic, field);
    }
  }

  /** The log only grows: a message adds events of its own topic and time, one field after another. */
  lemma LogGrows(before: seq<Message>, m: Message)
    ensures var log, log' := Transitions(before), Transitions(before + [m]);
      && |log| <= |log'| && log'[..|log|] == log
      && (forall e | e in log'[|log|..] :: e.topic == m.topic && e.ts == m.ts)
      && IsSubsequence(FieldsIn(log'[|log|..]), WatchedFields(m.topic))
  {
    var log, fields := Transitions(before), WatchedFields(m.topic);
    TransitionsOneMore(before, m);
    ChangesInOrder(before, m, fields);
    ChangesAreMarked(before, m, fields);
    assert (log + Changes(before, m, fields))[|log|..] == Changes(before, m, fields);
  }

  function FieldsIn(log: seq<Transition>): seq<string> {
    if log == [] then [] else FieldsIn(log[..|log| - 1]) + [log[|log| - 1].field]
  }

  lemma FieldsInOneMore(log: seq<Transition>, change: seq<Transition>)
    requires |change| <= 1
    ensures FieldsIn(log + change) == FieldsIn(log) + if change == [] then [] else [change[0].field]
  {
    if change == [] {
      assert log + change == log;
    } else {
      assert (log + change)[..|log|] == log;
    }
  }

  lemma {:induction false} ChangesInOrder(before: seq<Message>, m: Message, fields: seq<string>)
    ensures IsSubsequence(FieldsIn(Changes(before, m, fields)), fields)
  {
    if fields == [] {
    } else {
      var front, f := fields[..|fields| - 1], fields[|fields| - 1];
      var c := Changes(before, m, front);
      ChangesInOrder(before, m, front);
      SubsequenceGrows(FieldsIn(c), front, f);
      FieldsInOneMore(c, Change(before, m, f));
      assert fields == front + [f];
      assert FieldsIn(c) + [] == FieldsIn(c);
    }
  }

  lemma {:induction false} ChangesAreMarked(before: seq<Message>, m: Message, fields: seq<string>)
    ensures forall e | e in Changes(before, m, fields) :: e.topic == m.topic && e.ts == m.ts
  {
    if fields == [] {
    } else {
      ChangesAreMarked(before, m, fields[..|fields| - 1]);
    }
  }

  /** Evaluations depend on each topic's own messages only, not on how topics were interleaved. */
  lemma {:induction false} InterleavingDoesNotMatter(
    ms: seq<Message>, ns: seq<Message>, required: seq<string>, maxGap: Duration)
    requires SameTopicwise(ms, ns)
    ensures var e, f := Evaluate(ms, required, maxGap), Evaluate(ns, required, maxGap);
      && e.summaries == f.summaries && e.missing == f.missing && e.stale == f.stale
      && forall t, g :: EventsOf(e.transitions, t, g) == EventsOf(f.transitions, t, g)
  {
    SameSummaries(ms, ns);
    forall t ensures t in Topics(ms) <==> t in Topics(ns) { SameTopics(ms, ns, t); }
    SameMissing(required, Topics(ms), Topics(ns));
    var xs, ys := StaleAmong(Summaries(ms), Topics(ms), maxGap), StaleAmong(Summaries(ns), Topics(ns), maxGap);
    forall t ensures t in Sort(xs) <==> t in Sort(ys) {
      StaleAmongIff(Summaries(ms), Topics(ms), maxGap, t);
      StaleAmongIff(Summaries(ns), Topics(ns), maxGap, t);
      SortWorks(xs);
      SortWorks(ys);
    }
    SortWorks(xs);
    SortWorks(ys);
    SortedIsUnique(Sort(xs), Sort(ys));
    forall t, g ensures EventsOf(Transitions(ms), t, g) == EventsOf(Transitions(ns), t, g) {
      LogIsFieldwise(ms, t, g);
      LogIsFieldwise(ns, t, g);
    }
  }

  // ---------------------------------------------------------------- nothing is lost

  /** Events chain from `first`, each a real change. */
  ghost predicate ChainsFrom(first: Value, log: seq<Transition>) {
    log == [] ||
    var i := |log| - 1;
    && ChainsFrom(first, log[..i])
    && log[i].previous == (if i == 0 then first else log[i - 1].current)
    && log[i].previous != log[i].current
  }

  lemma ChainsOneMore(first: Value, log: seq<Transition>, e: Transition)
    requires ChainsFrom(first, log)
    requires e.previous == (if log == [] then first else log[|log| - 1].current) && e.previous != e.current
    ensures ChainsFrom(first, log + [e])
  {
    assert (log + [e])[..|log|] == log;
  }

  lemma {:induction false} LogChains(topic: string, field: string, vs: seq<Sample>)
    requires vs != []
    ensures var log := ChangeLog(topic, field, vs);
      ChainsFrom(vs[0].value, log)
      && (if log == [] then vs[0].value else log[|log| - 1].current) == vs[|vs| - 1].value
  {
    if |vs| == 1 {
    } else {
      var front, last := vs[..|vs| - 1], vs[|vs| - 1];
      var before, log := front[|front| - 1], ChangeLog(topic, field, front);
      LogChains(topic, field, front);
      assert vs == front + [last];
      LogOneMore(topic, field, front, last);
      if before.value != last.value {
        ChainsOneMore(vs[0].value, log, Transition(topic, field, before.value, last.value, last.ts));
      } else {
        assert ChangeLog(topic, field, vs) == log;
      }
    }
  }

  /** The value a log tells for time `t`. */
  function ValueAt(first: Value, log: seq<Transition>, t: Time): Value {
    if log == [] then first
    else if log[|log| - 1].ts <= t then log[|log| - 1].current
    else ValueAt(first, log[..|log| - 1], t)
  }

  /** The newest recorded value at time `t`. */
  function Recorded(vs: seq<Sample>, t: Time): Value
    requires vs != []
  {
    if |vs| == 1 || vs[|vs| - 1].ts <= t then vs[|vs| - 1].value else Recorded(vs[..|vs| - 1], t)
  }

  ghost predicate InOrder(vs: seq<Sample>) {
    forall i, j | 0 <= i <= j < |vs| :: vs[i].ts <= vs[j].ts
  }

  /** The log and the first value tell the recorded value at every time. */
  lemma {:induction false} LogReconstructs(topic: string, field: string, vs: seq<Sample>, t: Time)
    requires vs != [] && InOrder(vs)
    ensures ValueAt(vs[0].value, ChangeLog(topic, field, vs), t) == Recorded(vs, t)
  {
    if |vs| == 1 {
    } else {
      var front, last := vs[..|vs| - 1], vs[|vs| - 1];
      LogReconstructs(topic, field, front, t);
      var log, shorter := ChangeLog(topic, field, vs), ChangeLog(topic, field, front);
      if front[|front| - 1].value != last.value {
        assert log[..|shorter|] == shorter;
      } else {
        assert log == shorter;
        assert front[|front| - 1].ts <= last.ts;
      }
    }
  }

  /** At a sample's time the newest value is that of the last sample of the same time. */
  lemma {:induction false} RecordedAtSample(vs: seq<Sample>, i: nat)
    requires i < |vs| && InOrder(vs)
    requires i + 1 < |vs| ==> vs[i].ts < vs[i + 1].ts
    ensures Recorded(vs, vs[i].ts) == vs[i].value
  {
    if i == |vs| - 1 {
    } else {
      assert vs[i + 1].ts <= vs[|vs| - 1].ts;
      RecordedAtSample(vs[..|vs| - 1], i);
    }
  }

  lemma {:induction false} SamplesInOrder(ps: seq<Message>, field: string)
    requires Monotone(ps)
    ensures InOrder(Samples(ps, field))
    ensures forall i | 0 <= i < |Samples(ps, field)| :: Samples(ps, field)[i].ts <= ps[|ps| - 1].ts
  {
    if ps == [] {
    } else {
      var front := ps[..|ps| - 1];
      assert Monotone(front);
      SamplesInOrder(front, field);
      if front != [] { assert front[|front| - 1].ts <= ps[|ps| - 1].ts; }
    }
  }

  /** No later sample has the time of sample `j`. */
  predicate LastOfItsTime(vs: seq<Sample>, j: nat) {
    j < |vs| && (j + 1 < |vs| ==> vs[j].ts < vs[j + 1].ts)
  }

  /** The log chains, ends in the newest value, and tells sample `i` exactly if it agrees with sample `j`. */
  ghost predicate TellsSamples(vs: seq<Sample>, log: seq<Transition>, i: nat, j: nat)
    requires i < |vs| && j < |vs|
  {
    && ChainsFrom(vs[0].value, log)
    && (if log == [] then vs[0].value else log[|log| - 1].current) == vs[|vs| - 1].value
    && (ValueAt(vs[0].value, log, vs[i].ts) == vs[i].value <==> vs[i].value == vs[j].value)
  }

  lemma LogTellsSamples(topic: string, field: string, vs: seq<Sample>, i: nat, j: nat)
    requires InOrder(vs) && i < |vs| && LastOfItsTime(vs, j) && vs[i].ts == vs[j].ts
    ensures TellsSamples(vs, ChangeLog(topic, field, vs), i, j)
  {
    LogChains(topic, field, vs);
    LogReconstructs(topic, field, vs, vs[i].ts);
    RecordedAtSample(vs, j);
  }

  /**
   The report's events of a watched field chain from its first value, never repeat a value and end in
   the newest one. They give back the value of a message exactly when it is also the value of the last
   message of that same time -- always, where no two messages share a time.
   */
  lemma LogIsLossless(ms: seq<Message>, topic: string, field: string, vs: seq<Sample>, i: nat, j: nat)
    requires TopicwiseMonotone(ms) && Watches(topic, field)
    requires vs == Samples(Of(ms, topic), field)
    requires i < |vs| && LastOfItsTime(vs, j) && vs[i].ts == vs[j].ts
    ensures TellsSamples(vs, EventsOf(Transitions(ms), topic, field), i, j)
  {
    LogIsFieldwise(ms, topic, field);
    SamplesInOrder(Of(ms, topic), field);
    LogTellsSamples(topic, field, vs, i, j);
  }

  /** Two messages of one watched topic and one time, with different values. */
  function Simultaneous(topic: string, field: string, a: Value, b: Value, t: Time): seq<Message> {
    [Message(topic, t, map[field := a]), Message(topic, t, map[field := b])]
  }

  lemma OfPair(ms: seq<Message>, u: string)
    requires |ms| == 2 && ms[0].topic == ms[1].topic
    ensures Of(ms, u) == if u == ms[0].topic then ms else []
  {
    assert ms[..1] == [ms[0]] && [ms[0]][..0] == [];
    assert Of([ms[0]], u) == if u == ms[0].topic then [ms[0]] else [];
  }

  lemma SamplesOfPair(ms: seq<Message>, field: string)
    requires |ms| == 2 && field in ms[0].fields && field in ms[1].fields
    ensures Samples(ms, field) == [Sample(ms[0].fields[field], ms[0].ts), Sample(ms[1].fields[field], ms[1].ts)]
  {
    assert ms[..1] == [ms[0]] && [ms[0]][..0] == [];
    assert Samples([ms[0]], field) == [Sample(ms[0].fields[field], ms[0].ts)];
  }

  lemma PairIsMonotone(ms: seq<Message>)
    requires |ms| == 2 && ms[0].topic == ms[1].topic && ms[0].ts == ms[1].ts
    ensures TopicwiseMonotone(ms)
  {
    forall u ensures Monotone(Of(ms, u)) { OfPair(ms, u); }
  }

  lemma LogOfPair(topic: string, field: string, a: Value, b: Value, t: Time)
    ensures ChangeLog(topic, field, [Sample(a, t), Sample(b, t)])
            == if a != b then [Transition(topic, field, a, b, t)] else []
  {
    LogOneMore(topic, field, [Sample(a, t)], Sample(b, t));
    assert [Sample(a, t), Sample(b, t)] == [Sample(a, t)] + [Sample(b, t)];
  }

  /** The evaluator's log then tells the second value for that time, and cannot tell the first. */
  lemma SharedTimeHidesValue(topic: string, field: string, a: Value, b: Value, t: Time)
    requires Watches(topic, field)
    ensures var ms := Simultaneous(topic, field, a, b, t);
      var log := EventsOf(Transitions(ms), topic, field);
      TopicwiseMonotone(ms) && ValueAt(a, log, t) == b && (a != b ==> log == [Transition(topic, field, a, b, t)])
  {
    var ms := Simultaneous(topic, field, a, b, t);
    PairIsMonotone(ms);
    OfPair(ms, topic);
    SamplesOfPair(ms, field);
    LogIsFieldwise(ms, topic, field);
    LogOfPair(topic, field, a, b, t);
  }
}
