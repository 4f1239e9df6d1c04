/** Topic names in a bag: namespaces, required topics and the watched fields. */
module BagTopics {

  const WATCHED: map<string, seq<string>> := map[
    "mode/state" := ["active_mode"],
    "mode/transition_state" := ["outcome"],
    "safety/state" := ["state"],
    "safety/mrm_state" := ["state"],
    "runtime/command_arbitration_state" := ["active_source", "output_enabled"],
    "runtime/health" := ["state"],
    "locomotion/state" := ["state"]
  ]

  /** The name without its leading slashes. */
  function Strip(s: string): string {
    if s != "" && s[0] == '/' then Strip(s[1..]) else s
  }

  /** The index of the first slash, or the length if there is none. */
  function FirstSlash(s: string): (i: nat)
    ensures i <= |s| && '/' !in s[..i]
    ensures i < |s| ==> s[i] == '/'
  {
    if s == "" || s[0] == '/' then 0
    else
      var i := 1 + FirstSlash(s[1..]);
      assert s[..i] == [s[0]] + s[1..][..i - 1];
      i
  }

  predicate EndsWith(s: string, suffix: string) {
    |suffix| <= |s| && s[|s| - |suffix|..] == suffix
  }

  /** The name without one level of namespace, if that leaves one of the given names. */
  function NormalizeIn(names: set<string>, topic: string): string {
    var stripped := Strip(topic);
    var i := FirstSlash(stripped);
    if i < |stripped| && stripped[i + 1..] in names then stripped[i + 1..] else stripped
  }

  function Normalize(topic: string): string {
    NormalizeIn(WATCHED.Keys, topic)
  }

  function WatchedFields(topic: string): seq<string> {
    var name := Normalize(topic);
    if name in WATCHED then WATCHED[name] else []
  }

  predicate Provides(observed: string, required: string) {
    var stripped := Strip(observed);
    stripped == required || EndsWith(stripped, "/" + required)
  }

  predicate Present(required: string, observed: seq<string>) {
    exists i | 0 <= i < |observed| :: Provides(observed[i], required)
  }

  /** `bare` is `name` without its leading slashes: nothing but slashes comes before it, and none is its first. */
  predicate IsBare(name: string, bare: string) {
    && EndsWith(name, bare)
    && (forall i | 0 <= i < |name| - |bare| :: name[i] == '/')
    && (bare == "" || bare[0] != '/')
  }

  lemma {:induction false} StripIsBare(name: string)
    ensures IsBare(name, Strip(name))
  {
    if name != "" && name[0] == '/' {
      StripIsBare(name[1..]);
      var n := |name| - |Strip(name)|;
      assert name[n..] == name[1..][n - 1..];
      assert forall i | 1 <= i < n :: name[i] == name[1..][i - 1];
    }
  }

  lemma BareIsUnique(name: string, a: string, b: string)
    requires IsBare(name, a) && IsBare(name, b)
    ensures a == b
  {
    var m, n := |name| - |a|, |name| - |b|;
    assert a != "" ==> a[0] == name[m];
    assert b != "" ==> b[0] == name[n];
    assert m == n;
  }

  lemma EndsWithIff(s: string, suffix: string)
    ensures EndsWith(s, suffix) <==> exists head: string :: s == head + suffix
  {
    if EndsWith(s, suffix) { assert s == s[..|s| - |suffix|] + suffix; }
  }

  /** Without its leading slashes the topic is the required name, or ends in a slash and that name. */
  ghost predicate Names(topic: string, required: string) {
    exists bare :: IsBare(topic, bare) && (bare == required || EndsWith(bare, "/" + required))
  }

  /** What it takes for an observed topic to provide a required one. */
  lemma ProvidesIff(topic: string, required: string)
    ensures Provides(topic, required) <==> Names(topic, required)
  {
    var stripped := Strip(topic);
    StripIsBare(topic);
    if Names(topic, required) {
      var bare :| IsBare(topic, bare) && (bare == required || EndsWith(bare, "/" + required));
      BareIsUnique(topic, bare, stripped);
    } else {
      assert !(stripped == required || EndsWith(stripped, "/" + required));
    }
  }

  /** The fields of a topic are listed once each. */
  lemma WatchedFieldsDistinct(topic: string)
    ensures forall i, j | 0 <= i < j < |WatchedFields(topic)| :: WatchedFields(topic)[i] != WatchedFields(topic)[j]
  {}

  /** A topic name under at most one level of namespace. */
  ghost predicate Directly(topic: string, key: string) {
    Strip(topic) == key || exists id: string :: '/' !in id && Strip(topic) == id + "/" + key
  }

  lemma FirstSlashSplits(id: string, rest: string)
    requires '/' !in id
    ensures FirstSlash(id + "/" + rest) == |id|
  {
    var s := id + "/" + rest;
    var i := FirstSlash(s);
    assert s[|id|] == '/';
    assert forall j | 0 <= j < |id| :: s[j] == id[j] && id[j] in id;
    assert forall j | 0 <= j < i :: s[j] == s[..i][j] && s[..i][j] in s[..i];
  }

  ghost predicate Joins(name: string, group: string, leaf: string) {
    '/' !in group && '/' !in leaf && name == group + "/" + leaf
  }

  ghost predicate TwoSegments(name: string) {
    exists group, leaf :: Joins(name, group, leaf)
  }

  lemma ModeNames()
    ensures TwoSegments("mode/state") && TwoSegments("mode/transition_state")
  {
    assert Joins("mode/state", "mode", "state");
    assert Joins("mode/transition_state", "mode", "transition_state");
  }

  lemma SafetyNames()
    ensures TwoSegments("safety/state") && TwoSegments("safety/mrm_state")
  {
    assert Joins("safety/state", "safety", "state");
    assert Joins("safety/mrm_state", "safety", "mrm_state");
  }

  lemma ArbitrationName()
    ensures TwoSegments("runtime/command_arbitration_state")
  {
    assert Joins("runtime/command_arbitration_state", "runtime", "command_arbitration_state");
  }

  lemma OtherNames()
    ensures TwoSegments("runtime/health") && TwoSegments("locomotion/state")
  {
    assert Joins("runtime/health", "runtime", "health");
    assert Joins("locomotion/state", "locomotion", "state");
  }

  lemma WatchedHaveTwoSegments(key: string)
    requires key in WATCHED
    ensures TwoSegments(key)
  {
    ModeNames();
    SafetyNames();
    ArbitrationName();
    OtherNames();
  }

  ghost predicate AllTwoSegments(names: set<string>) {
    forall name | name in names :: TwoSegments(name)
  }

  lemma LeafAfterSlash(name: string)
    requires TwoSegments(name)
    ensures FirstSlash(name) < |name| && '/' !in name[FirstSlash(name) + 1..]
  {
    var group, leaf :| Joins(name, group, leaf);
    FirstSlashSplits(group, leaf);
    assert name[|group| + 1..] == leaf;
  }

  /** Among two-segment names, none is another one under a namespace. */
  lemma NamesAreNotNested(names: set<string>, name: string)
    requires AllTwoSegments(names) && name in names
    ensures FirstSlash(name) < |name| && name[FirstSlash(name) + 1..] !in names
  {
    LeafAfterSlash(name);
    var leaf := name[FirstSlash(name) + 1..];
    if leaf in names { LeafAfterSlash(leaf); }
  }

  lemma NormalizedIffDirect(names: set<string>, topic: string, key: string)
    requires AllTwoSegments(names) && key in names
    ensures NormalizeIn(names, topic) == key <==> Directly(topic, key)
  {
    var stripped := Strip(topic);
    var i := FirstSlash(stripped);
    if NormalizeIn(names, topic) == key && stripped != key {
      assert stripped == stripped[..i] + "/" + stripped[i + 1..];
    }
    if stripped == key {
      NamesAreNotNested(names, key);
    } else if Directly(topic, key) {
      var id: string :| '/' !in id && stripped == id + "/" + key;
      FirstSlashSplits(id, key);
      assert stripped[|id| + 1..] == key;
    }
  }

  /** A topic is watched as `key` exactly when it is `key` under at most one level of namespace. */
  lemma {:induction false} WatchedIffDirect(topic: string, key: string)
    requires key in WATCHED
    ensures Normalize(topic) == key <==> Directly(topic, key)
  {
    forall name | name in WATCHED ensures TwoSegments(name) { WatchedHaveTwoSegments(name); }
    NormalizedIffDirect(WATCHED.Keys, topic, key);
  }

  /** Whatever is watched as `key` counts as `key` being present. */
  lemma WatchedIsPresent(topic: string, key: string)
    requires key in WATCHED && Normalize(topic) == key
    ensures Provides(topic, key)
  {}

  /** A name with a namespace before a two-segment name has more than two segments. */
  lemma NamespacedIsLonger(id: string, name: string)
    requires '/' !in id && TwoSegments(name)
    ensures !TwoSegments(id + "/" + name)
  {
    var longer := id + "/" + name;
    FirstSlashSplits(id, name);
    LeafAfterSlash(name);
    assert longer[|id| + 1..] == name;
    assert name[FirstSlash(name)] == '/';
    if TwoSegments(longer) { LeafAfterSlash(longer); }
  }

  lemma DeepNamespace(names: set<string>, topic: string, outer: string, inner: string, key: string)
    requires AllTwoSegments(names) && key in names && '/' !in outer && '/' !in inner
    requires Strip(topic) == outer + "/" + (inner + "/" + key)
    ensures Provides(topic, key) && NormalizeIn(names, topic) !in names
  {
    var stripped, rest := Strip(topic), inner + "/" + key;
    NamespacedIsLonger(inner, key);
    FirstSlashSplits(outer, rest);
    assert stripped[|outer| + 1..] == rest;
    assert rest[|inner|] == '/';
    if stripped in names { LeafAfterSlash(stripped); }
    assert stripped[|stripped| - |key| - 1..] == "/" + key;
  }

  /** Under two levels of namespace a topic still counts as present, but none of its fields is watched. */
  lemma DeepNamespaceIsPresentUnwatched(topic: string, outer: string, inner: string, key: string)
    requires key in WATCHED && '/' !in outer && '/' !in inner
    requires Strip(topic) == outer + "/" + (inner + "/" + key)
    ensures Provides(topic, key) && WatchedFields(topic) == []
  {
    forall name | name in WATCHED ensures TwoSegments(name) { WatchedHaveTwoSegments(name); }
    DeepNamespace(WATCHED.Keys, topic, outer, inner, key);
  }

  /** The watched fields, topic by topic. */
  ghost predicate IsWatched(topic: string, field: string) {
    || (field == "active_mode" && Directly(topic, "mode/state"))
    || (field == "outcome" && Directly(topic, "mode/transition_state"))
    || (field == "state" && Directly(topic, "safety/state"))
    || (field == "state" && Directly(topic, "safety/mrm_state"))
    || (field == "active_source" && Directly(topic, "runtime/command_arbitration_state"))
    || (field == "output_enabled" && Directly(topic, "runtime/command_arbitration_state"))
    || (field == "state" && Directly(topic, "runtime/health"))
    || (field == "state" && Directly(topic, "locomotion/state"))
  }

  lemma FieldsOf(name: string, field: string)
    ensures name in WATCHED && field in WATCHED[name] <==>
      || (field == "active_mode" && name == "mode/state")
      || (field == "outcome" && name == "mode/transition_state")
      || (field == "state" && name in {"safety/state", "safety/mrm_state", "runtime/health", "locomotion/state"})
      || (field in {"active_source", "output_enabled"} && name == "runtime/command_arbitration_state")
  {}

  /** A field is watched on exactly these topics, each under at most one level of namespace. */
  lemma WatchedFieldsIff(topic: string, field: string)
    ensures field in WatchedFields(topic) <==> IsWatched(topic, field)
  {
    FieldsOf(Normalize(topic), field);
    WatchedIffDirect(topic, "mode/state");
    WatchedIffDirect(topic, "mode/transition_state");
    WatchedIffDirect(topic, "safety/state");
    WatchedIffDirect(topic, "safety/mrm_state");
    WatchedIffDirect(topic, "runtime/command_arbitration_state");
    WatchedIffDirect(topic, "runtime/health");
    WatchedIffDirect(topic, "locomotion/state");
  }
}
