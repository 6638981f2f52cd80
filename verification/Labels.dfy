/** Names and labels of a FeedListener's children, from
    operator/internal/controller/resources.go and finalizer.go. */
module Labels {
  import opened Wrappers

  datatype LabelKey = NameLabel | InstanceLabel | PartOfLabel | ComponentLabel | ShardLabel

  type LabelSet = map<LabelKey, string>

  /** A selector matches labels that carry all of its pairs. */
  predicate Matches(selector: LabelSet, labels: LabelSet) {
    forall key :: key in selector ==> key in labels && labels[key] == selector[key]
  }

  function SelectorLabels(name: string): LabelSet {
    map[NameLabel := "feed-listener", InstanceLabel := name]
  }

  function ObjectLabels(name: string): LabelSet {
    SelectorLabels(name)[PartOfLabel := "elite-events"][ComponentLabel := "ingestion"]
  }

  function MaintenanceLabels(name: string): LabelSet {
    map[NameLabel := "feed-maintenance", InstanceLabel := name, PartOfLabel := "elite-events", ComponentLabel := "maintenance"]
  }

  function DrainLabels(name: string): LabelSet {
    map[NameLabel := "feed-drain", InstanceLabel := name, PartOfLabel := "elite-events", ComponentLabel := "drain"]
  }

  function ShardLabels(name: string, shard: nat): LabelSet { ObjectLabels(name)[ShardLabel := Itoa(shard)] }

  function ShardSelector(name: string, shard: nat): LabelSet { SelectorLabels(name)[ShardLabel := Itoa(shard)] }

  function ShardDeploymentName(name: string, shard: nat): string { name + "-" + Itoa(shard) }

  /** The three populations are told apart by their labels, whatever the listeners' names:
      teardown waits for no pod it starts itself. */
  lemma PopulationsAreDisjoint(name: string, other: string, shard: nat)
    ensures !Matches(SelectorLabels(name), DrainLabels(other))
    ensures !Matches(MaintenanceLabels(name), DrainLabels(other))
    ensures !Matches(SelectorLabels(name), MaintenanceLabels(other))
    ensures !Matches(MaintenanceLabels(name), ShardLabels(other, shard))
  {
    assert "feed-listener"[5] == 'l' && "feed-maintenance"[5] == 'm' && "feed-drain"[5] == 'd';
    assert SelectorLabels(name)[NameLabel] == "feed-listener";
    assert MaintenanceLabels(name)[NameLabel] == "feed-maintenance";
    assert ShardLabels(other, shard)[NameLabel] == "feed-listener";
  }

  /** A pod is found by its own listener's selectors and by no other listener's. */
  lemma OwnPodsAreFound(name: string, other: string, shard: nat)
    ensures Matches(SelectorLabels(name), ShardLabels(other, shard)) <==> name == other
    ensures Matches(ShardSelector(name, shard), ShardLabels(name, shard))
    ensures Matches(MaintenanceLabels(name), MaintenanceLabels(other)) <==> name == other
  {
    assert ShardLabels(other, shard)[InstanceLabel] == other && SelectorLabels(name)[InstanceLabel] == name;
    assert MaintenanceLabels(other)[InstanceLabel] == other && MaintenanceLabels(name)[InstanceLabel] == name;
  }

  // ---- decimal numbers ------------------------------------------------------------------

  function Digit(d: nat): char
    requires d < 10
  {
    (d + 48) as char
  }

  /** `strconv.Itoa`, on the natural numbers. */
  function Itoa(n: nat): (s: string)
    ensures s != "" && forall i :: 0 <= i < |s| ==> '0' <= s[i] <= '9'
  {
    if n < 10 then [Digit(n)] else Itoa(n / 10) + [Digit(n % 10)]
  }

  /** `strconv.Atoi`, on digits alone; anything else is an error. */
  function Atoi(s: string): Option<int> {
    if s == "" then None
    else
      var c := s[|s| - 1];
      if !('0' <= c <= '9') then None
      else if |s| == 1 then Some(c as int - 48)
      else
        var front := Atoi(s[..|s| - 1]);
        if front.None? then None else Some(front.value * 10 + (c as int - 48))
  }

  lemma {:induction false} AtoiItoa(n: nat)
    ensures Atoi(Itoa(n)) == Some(n)
  {
    if n >= 10 {
      AtoiItoa(n / 10);
      var s := Itoa(n);
      assert s[..|s| - 1] == Itoa(n / 10) && s[|s| - 1] == Digit(n % 10);
    }
  }

  /** `int32(shard)`. */
  function ToInt32(n: int): int { (n + 0x8000_0000) % 0x1_0000_0000 - 0x8000_0000 }

  lemma ToInt32InRange(n: int)
    requires 0 <= n < 0x8000_0000
    ensures ToInt32(n) == n
  {}

  /** `isOwnedShard`; surrounding white space in a label value is not modelled. */
  function OwnedShard(name: string, labels: LabelSet): Option<int> {
    if InstanceLabel !in labels || labels[InstanceLabel] != name then None
    else if NameLabel !in labels || labels[NameLabel] != "feed-listener" then None
    else if ShardLabel !in labels then None
    else
      var shard := Atoi(labels[ShardLabel]);
      if shard.None? then None else Some(ToInt32(shard.value))
  }

  /** A shard Deployment is recognized as the shard it was built for. */
  lemma OwnedShardRoundTrip(name: string, shard: nat)
    requires shard < 0x8000_0000
    ensures OwnedShard(name, ShardLabels(name, shard)) == Some(shard)
  {
    AtoiItoa(shard);
    ToInt32InRange(shard);
  }

  /** No other listener's shard is taken for one of its own, and neither is a rebuild or a drain. */
  lemma NoOtherIsOwned(name: string, other: string, shard: nat)
    ensures OwnedShard(name, ShardLabels(other, shard)).Some? <==> name == other
    ensures OwnedShard(name, MaintenanceLabels(other)) == OwnedShard(name, DrainLabels(other)) == None
    ensures OwnedShard(name, ObjectLabels(other)) == None
  {
    AtoiItoa(shard);
    assert "feed-listener"[5] == 'l' && "feed-maintenance"[5] == 'm' && "feed-drain"[5] == 'd';
    assert ShardLabels(other, shard)[InstanceLabel] == other;
  }

  /** Deployment names are distinct over listeners and shards, dashes in names or not. */
  lemma {:induction false} DeploymentNameInjective(a: string, i: nat, b: string, j: nat)
    requires ShardDeploymentName(a, i) == ShardDeploymentName(b, j)
    ensures a == b && i == j
  {
    LastDash(a, Itoa(i));
    LastDash(b, Itoa(j));
    AtoiItoa(i);
    AtoiItoa(j);
  }

  /** Where the last dash of a string is, or -1. */
  function DashIn(s: string): int {
    if s == "" then -1 else if s[|s| - 1] == '-' then |s| - 1 else DashIn(s[..|s| - 1])
  }

  lemma {:induction false} LastDash(name: string, digits: string)
    requires forall k :: 0 <= k < |digits| ==> '0' <= digits[k] <= '9'
    ensures var s := name + "-" + digits; DashIn(s) == |name| && s[..|name|] == name && s[|name| + 1..] == digits
    decreases |digits|
  {
    var s := name + "-" + digits;
    if digits != "" {
      var front := digits[..|digits| - 1];
      LastDash(name, front);
      assert s[..|s| - 1] == name + "-" + front && s[|s| - 1] == digits[|digits| - 1];
    }
  }
}
