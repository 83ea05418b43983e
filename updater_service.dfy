/**
 * The "update version" command of UpdaterService: it resolves a target version id, sets the node
 * identity's version and persists it, then rewrites the created version of every index of the
 * last accepted cluster state that differs from the target, and writes that state back once.
 * A version is its int id; the persistence calls are recorded as a ghost log of writes, and what
 * each call answers (success or an exception) is a parameter.
 */
module UpdaterService {
  import opened Wrappers
  import opened JavaText
  import opened ClusterMetaData

  /** Version.V_7_5_1.id: the target when no usable version is given. */
  const V_7_5_1: int := 7050199

  /** The index setting holding the version the index was created with. */
  const VERSION_CREATED := "index.version.created"

  /**
   * The target version id: the given number when it parses to a positive int, the default when
   * none is given or the number is not positive, and None when it does not parse (the command
   * stops with an error before it changes anything).
   */
  function ResolveVersion(ver: string): (r: Option<int>)
    ensures r.Some? ==> 0 < r.value <= INT_MAX
  {
    if |ver| > 0 then
      var parsed := ParseInt(ver);
      if parsed.None? then None
      else if parsed.value > 0 then Some(parsed.value)
      else Some(V_7_5_1)
    else Some(V_7_5_1)
  }

  /** The node step runs for the scopes "node" and "all", in any case. */
  predicate NodeScope(scope: string) {
    EqualsIgnoreCase(scope, "node") || EqualsIgnoreCase(scope, "all")
  }

  /** The global step runs for the scopes "global" and "all", in any case. */
  predicate GlobalScope(scope: string) {
    EqualsIgnoreCase(scope, "global") || EqualsIgnoreCase(scope, "all")
  }

  /** The created version as the index setting reads it: missing, an id, or a value that does not parse. */
  datatype Created = Absent | Id(id: int) | Malformed

  function CreatedVersion(settings: Settings): (r: Created)
    ensures r.Absent? <==> VERSION_CREATED !in settings
    ensures r.Id? ==> INT_MIN <= r.id <= INT_MAX
  {
    if VERSION_CREATED !in settings then Absent
    else
      var parsed := ParseInt(settings[VERSION_CREATED]);
      if parsed.Some? then Id(parsed.value) else Malformed
  }

  /** One index of the global step: the created version is overwritten when it is there and differs. */
  function Rewrite(im: IndexMetaData, target: int): (r: IndexMetaData)
    ensures r.index == im.index && r.definition == im.definition
    ensures r.settings.Keys == im.settings.Keys
    ensures !CreatedVersion(im.settings).Id? || CreatedVersion(im.settings).id == target ==> r == im
  {
    var created := CreatedVersion(im.settings);
    if created.Id? && created.id != target then im.(settings := im.settings[VERSION_CREATED := IntToString(target)])
    else im
  }

  /** The position of the first index whose created version does not parse, or the length. */
  function FirstMalformed(indices: seq<IndexMetaData>): (k: nat)
    ensures k <= |indices|
    ensures forall j :: 0 <= j < k ==> !CreatedVersion(indices[j].settings).Malformed?
    ensures k < |indices| ==> CreatedVersion(indices[k].settings).Malformed?
    decreases |indices|
  {
    if |indices| == 0 then 0
    else if CreatedVersion(indices[0].settings).Malformed? then 0
    else 1 + FirstMalformed(indices[1..])
  }

  /** The indices after the global step has rewritten the first k of them. */
  function RewriteFirst(indices: seq<IndexMetaData>, target: int, k: nat): (r: seq<IndexMetaData>)
    ensures |r| == |indices|
  {
    seq(|indices|, i requires 0 <= i < |indices| => if i < k then Rewrite(indices[i], target) else indices[i])
  }

  /** How the command ends: the error it prints, or none. */
  datatype Outcome = VersionUnreadable | NodeWriteFailed | GlobalStepFailed | Done

  /** One persistence call: the node identity, or the whole last accepted state. */
  datatype Persist = NodeWrite(node: NodeMetaData) | StateWrite(indices: seq<IndexMetaData>)

  datatype State = State(node: NodeMetaData, indices: seq<IndexMetaData>)

  /** The state after the command, the persistence calls it made in order, and how it ended. */
  datatype Transition = Transition(after: State, writes: seq<Persist>, outcome: Outcome)

  /**
   * updateVersion(ver, scope) on the state s, where nodeOk and stateOk are whether writing the
   * node identity and writing the cluster state succeed.
   */
  function UpdateVersionSpec(s: State, ver: string, scope: string, nodeOk: bool, stateOk: bool): Transition {
    var resolved := ResolveVersion(ver);
    if resolved.None? then Transition(s, [], VersionUnreadable)
    else
      var target := resolved.value;
      var node := if NodeScope(scope) then s.node.(nodeVersion := target) else s.node;
      var nodeWrites := if NodeScope(scope) then [NodeWrite(node)] else [];
      if NodeScope(scope) && !nodeOk then Transition(State(node, s.indices), nodeWrites, NodeWriteFailed)
      else if !GlobalScope(scope) then Transition(State(node, s.indices), nodeWrites, Done)
      else
        var k := FirstMalformed(s.indices);
        var indices := RewriteFirst(s.indices, target, k);
        if k < |s.indices| then Transition(State(node, indices), nodeWrites, GlobalStepFailed)
        else Transition(State(node, indices), nodeWrites + [StateWrite(indices)],
                        if stateOk then Done else GlobalStepFailed)
  }

  /** The metadata the command works on: the node identity and the indices of the last accepted state. */
  class Updater {
    var node: NodeMetaData
    const lastAccepted: array<IndexMetaData>
    ghost var persisted: seq<Persist>

    constructor (node: NodeMetaData, indices: seq<IndexMetaData>)
      ensures this.node == node && lastAccepted[..] == indices && persisted == []
      ensures fresh(lastAccepted)
    {
      this.node := node;
      lastAccepted := new IndexMetaData[|indices|](i requires 0 <= i < |indices| => indices[i]);
      persisted := [];
    }

    /** updateVersion(ver, scope): the branches, the early returns and the in-place loop of the source. */
    method UpdateVersion(ver: string, scope: string, nodeWriteOk: bool, stateWriteOk: bool) returns (outcome: Outcome)
      modifies this, lastAccepted
      ensures var t := UpdateVersionSpec(State(old(node), old(lastAccepted[..])), ver, scope, nodeWriteOk, stateWriteOk);
              && node == t.after.node
              && lastAccepted[..] == t.after.indices
              && persisted == old(persisted) + t.writes
              && outcome == t.outcome
    {
      var version: int;
      if |ver| > 0 {
        var parsed := ParseInt(ver);
        if parsed.None? {
          return VersionUnreadable;
        }
        if parsed.value > 0 {
          version := parsed.value;
        } else {
          version := V_7_5_1;
        }
      } else {
        version := V_7_5_1;
      }
      assert ResolveVersion(ver) == Some(version);

      if EqualsIgnoreCase(scope, "node") || EqualsIgnoreCase(scope, "all") {
        node := node.(nodeVersion := version);
        persisted := persisted + [NodeWrite(node)];
        if !nodeWriteOk {
          return NodeWriteFailed;
        }
      }

      if EqualsIgnoreCase(scope, "global") || EqualsIgnoreCase(scope, "all") {
        var complete := RewriteCreatedVersions(version);
        if !complete {
          return GlobalStepFailed;
        }
        persisted := persisted + [StateWrite(lastAccepted[..])];
        if !stateWriteOk {
          return GlobalStepFailed;
        }
      }
      outcome := Done;
    }

    /**
     * The walk over the indices of the last accepted state: each created version that differs
     * from the target is overwritten in place; an unreadable one stops the walk (complete is
     * false), leaving the indices before it rewritten.
     */
    method RewriteCreatedVersions(version: int) returns (complete: bool)
      modifies lastAccepted
      ensures lastAccepted[..] == RewriteFirst(old(lastAccepted[..]), version, FirstMalformed(old(lastAccepted[..])))
      ensures complete <==> FirstMalformed(old(lastAccepted[..])) == lastAccepted.Length
    {
      ghost var s0 := lastAccepted[..];
      assert s0 == RewriteFirst(s0, version, 0);
      var i := 0;
      while i < lastAccepted.Length
        invariant 0 <= i <= lastAccepted.Length
        invariant i <= FirstMalformed(s0)
        invariant lastAccepted[..] == RewriteFirst(s0, version, i)
      {
        var im := lastAccepted[i];
        var created := CreatedVersion(im.settings);
        if created.Malformed? {
          return false;
        }
        if created.Id? && created.id != version {
          lastAccepted[i] := im.(settings := im.settings[VERSION_CREATED := IntToString(version)]);
        }
        assert lastAccepted[..] == RewriteFirst(s0, version, i + 1);
        i := i + 1;
      }
      complete := true;
    }
  }

  // ---------------------------------------------------------------- properties

  /**
   * The target is the parsed number when it is positive and the default when no number is given
   * or it is not positive; a string that does not parse stops the command. Every target is a
   * positive int.
   */
  lemma ResolveVersionCases(ver: string)
    ensures |ver| == 0 ==> ResolveVersion(ver) == Some(V_7_5_1)
    ensures |ver| > 0 && ParseInt(ver).Some? && ParseInt(ver).value > 0 ==> ResolveVersion(ver) == ParseInt(ver)
    ensures |ver| > 0 && ParseInt(ver).Some? && ParseInt(ver).value <= 0 ==> ResolveVersion(ver) == Some(V_7_5_1)
    ensures ResolveVersion(ver).None? <==> |ver| > 0 && ParseInt(ver).None?
    ensures ResolveVersion(ver).Some? ==> 0 < ResolveVersion(ver).value <= INT_MAX
  {
  }

  /** An unreadable version, or a scope that names neither step, changes nothing and writes nothing. */
  lemma NothingChanges(s: State, ver: string, scope: string, nodeOk: bool, stateOk: bool)
    ensures ResolveVersion(ver).None? || (!NodeScope(scope) && !GlobalScope(scope))
            ==> UpdateVersionSpec(s, ver, scope, nodeOk, stateOk).after == s
                && UpdateVersionSpec(s, ver, scope, nodeOk, stateOk).writes == []
    ensures ResolveVersion(ver).None? ==> UpdateVersionSpec(s, ver, scope, nodeOk, stateOk).outcome == VersionUnreadable
  {
  }

  /**
   * The node step sets the node's version to the target and persists it once; when that write
   * fails the command stops, and the indices are not looked at even for the scope "all".
   */
  lemma NodeStep(s: State, ver: string, scope: string, nodeOk: bool, stateOk: bool)
    requires ResolveVersion(ver).Some? && NodeScope(scope)
    ensures var t := UpdateVersionSpec(s, ver, scope, nodeOk, stateOk);
            && t.after.node == s.node.(nodeVersion := ResolveVersion(ver).value)
            && |t.writes| > 0 && t.writes[0] == NodeWrite(t.after.node)
            && (forall j :: 1 <= j < |t.writes| ==> !t.writes[j].NodeWrite?)
    ensures !nodeOk ==> var t := UpdateVersionSpec(s, ver, scope, nodeOk, stateOk);
            && t.outcome == NodeWriteFailed
            && t.after.indices == s.indices
            && t.writes == [NodeWrite(t.after.node)]
  {
  }

  /**
   * The scope decides which parts are touched: the node only for "node" or "all" (and then its
   * write is recorded), the indices only for "global" or "all".
   */
  lemma ScopeDispatch(s: State, ver: string, scope: string, nodeOk: bool, stateOk: bool)
    ensures var t := UpdateVersionSpec(s, ver, scope, nodeOk, stateOk);
            !NodeScope(scope) ==> t.after.node == s.node && forall j :: 0 <= j < |t.writes| ==> !t.writes[j].NodeWrite?
    ensures var t := UpdateVersionSpec(s, ver, scope, nodeOk, stateOk);
            !GlobalScope(scope) ==> t.after.indices == s.indices
    ensures var t := UpdateVersionSpec(s, ver, scope, nodeOk, stateOk);
            ResolveVersion(ver).Some? ==> (NodeWrite(t.after.node) in t.writes <==> NodeScope(scope))
  {
  }

  /** The written created version reads back as the target. */
  lemma RewriteReadsBack(im: IndexMetaData, target: int)
    requires INT_MIN <= target <= INT_MAX
    ensures CreatedVersion(im.settings).Id? ==> CreatedVersion(Rewrite(im, target).settings) == Id(target)
  {
    if CreatedVersion(im.settings).Id? {
      ParseIntToString(target);
    }
  }

  /**
   * Rewriting one index touches only its created-version setting: the index, its definition, its
   * set of setting keys and every other setting stay as they were.
   */
  lemma RewriteKeepsOthers(im: IndexMetaData, target: int)
    ensures Rewrite(im, target).index == im.index && Rewrite(im, target).definition == im.definition
    ensures Rewrite(im, target).settings.Keys == im.settings.Keys
    ensures forall key :: key in im.settings && key != VERSION_CREATED ==> Rewrite(im, target).settings[key] == im.settings[key]
  {
  }

  /**
   * An index is left exactly as it was when it has no created version or already has the target
   * id; otherwise its created version becomes the decimal form of the target.
   */
  lemma RewriteChangesExactly(im: IndexMetaData, target: int)
    ensures CreatedVersion(im.settings).Absent? || CreatedVersion(im.settings) == Id(target) ==> Rewrite(im, target) == im
    ensures CreatedVersion(im.settings).Id? && CreatedVersion(im.settings) != Id(target)
            ==> Rewrite(im, target).settings == im.settings[VERSION_CREATED := IntToString(target)]
  {
  }

  /** A rewritten index is rewritten no further, and never becomes unreadable. */
  lemma RewriteIdempotent(im: IndexMetaData, target: int)
    requires INT_MIN <= target <= INT_MAX
    ensures Rewrite(Rewrite(im, target), target) == Rewrite(im, target)
    ensures CreatedVersion(Rewrite(im, target).settings).Malformed? <==> CreatedVersion(im.settings).Malformed?
  {
    RewriteReadsBack(im, target);
  }

  /** The global step over a prefix leaves the position of the first unreadable index where it was. */
  lemma {:induction false} FirstMalformedRewritten(indices: seq<IndexMetaData>, target: int)
    requires INT_MIN <= target <= INT_MAX
    ensures FirstMalformed(RewriteFirst(indices, target, FirstMalformed(indices))) == FirstMalformed(indices)
  {
    var k := FirstMalformed(indices);
    var r := RewriteFirst(indices, target, k);
    forall j | 0 <= j < k
      ensures !CreatedVersion(r[j].settings).Malformed?
    {
      RewriteIdempotent(indices[j], target);
    }
    if k < |indices| {
      assert r[k] == indices[k];
    }
  }

  /**
   * The global step run again on what it produced changes nothing more: the second run stops at
   * the same unreadable index and finds the prefix before it already rewritten.
   */
  lemma GlobalStepIdempotent(indices: seq<IndexMetaData>, target: int)
    requires INT_MIN <= target <= INT_MAX
    ensures var once := RewriteFirst(indices, target, FirstMalformed(indices));
            RewriteFirst(once, target, FirstMalformed(once)) == once
  {
    var k := FirstMalformed(indices);
    FirstMalformedRewritten(indices, target);
    forall i | 0 <= i < |indices| && i < k
      ensures Rewrite(Rewrite(indices[i], target), target) == Rewrite(indices[i], target)
    {
      RewriteIdempotent(indices[i], target);
    }
  }

  /**
   * The global step, when every created version reads, leaves each index as Rewrite makes it: the
   * created version set to the target where it was present and different, nothing else touched.
   */
  lemma GlobalStepEffect(s: State, ver: string, scope: string, nodeOk: bool, stateOk: bool)
    requires ResolveVersion(ver).Some? && GlobalScope(scope) && (NodeScope(scope) ==> nodeOk)
    requires forall j :: 0 <= j < |s.indices| ==> !CreatedVersion(s.indices[j].settings).Malformed?
    ensures var t := UpdateVersionSpec(s, ver, scope, nodeOk, stateOk);
            && |t.after.indices| == |s.indices|
            && forall j :: 0 <= j < |s.indices| ==> t.after.indices[j] == Rewrite(s.indices[j], ResolveVersion(ver).value)
  {
  }

  /** The number of StateWrite calls in a log. */
  function StateWrites(writes: seq<Persist>): nat
    decreases |writes|
  {
    if writes == [] then 0
    else StateWrites(writes[..|writes| - 1]) + if writes[|writes| - 1].StateWrite? then 1 else 0
  }

  /**
   * The cluster state is written back at most once, and exactly once when the global step runs
   * to its end, whether or not any index changed; the write carries the state after the step.
   */
  lemma SingleWriteBack(s: State, ver: string, scope: string, nodeOk: bool, stateOk: bool)
    ensures var t := UpdateVersionSpec(s, ver, scope, nodeOk, stateOk);
            StateWrites(t.writes) == if && ResolveVersion(ver).Some? && GlobalScope(scope)
                                        && (NodeScope(scope) ==> nodeOk)
                                        && FirstMalformed(s.indices) == |s.indices|
                                     then 1 else 0
    ensures var t := UpdateVersionSpec(s, ver, scope, nodeOk, stateOk);
            StateWrites(t.writes) == 1 ==> t.writes[|t.writes| - 1] == StateWrite(t.after.indices)
  {
    var t := UpdateVersionSpec(s, ver, scope, nodeOk, stateOk);
    if ResolveVersion(ver).Some? && NodeScope(scope) {
      assert t.writes[..1] == [NodeWrite(t.after.node)];
      assert StateWrites([NodeWrite(t.after.node)]) == 0 by {
        assert [NodeWrite(t.after.node)][..0] == [];
      }
      if |t.writes| == 2 {
        assert t.writes[..|t.writes| - 1] == t.writes[..1];
      }
    } else if ResolveVersion(ver).Some? && |t.writes| == 1 {
      assert t.writes[..0] == [];
    }
  }

  /**
   * Running the command again with the same arguments and the same answers from the stores
   * repeats exactly the same writes and ends in the same state.
   */
  lemma UpdateIdempotent(s: State, ver: string, scope: string, nodeOk: bool, stateOk: bool)
    ensures var t := UpdateVersionSpec(s, ver, scope, nodeOk, stateOk);
            UpdateVersionSpec(t.after, ver, scope, nodeOk, stateOk) == t
  {
    var resolved := ResolveVersion(ver);
    if resolved.Some? {
      var target := resolved.value;
      var k := FirstMalformed(s.indices);
      FirstMalformedRewritten(s.indices, target);
      GlobalStepIdempotent(s.indices, target);
    }
  }
}
