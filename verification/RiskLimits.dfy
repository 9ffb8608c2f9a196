/** Compare-and-swap of the risk limits (routes.rs, put_risk_config): the version
  is read without a lock, and only the conditional UPDATE decides who won. */
module RiskLimits {
  import opened RiskEngine

  /** The percent columns are NUMERIC(8,4): four decimals, half away from zero. */
  function StoredPct(pct: real): real {
    (pct * 10000.0 + 0.5).Floor as real / 10000.0
  }

  function StoredLimits(body: RiskConfig): RiskConfig {
    RiskConfig(StoredPct(body.dailyMaxLossPct), StoredPct(body.maxPositionPctEquity),
               body.maxConcurrentPositions, StoredPct(body.maxCorrelatedExposurePct))
  }

  predicate PctInRange(pct: real) {
    0.0 < pct <= 100.0
  }

  /** The handler's validation, and the table's CHECKs on the same fields. */
  predicate InRange(limits: RiskConfig) {
    && PctInRange(limits.dailyMaxLossPct) && PctInRange(limits.maxPositionPctEquity)
    && PctInRange(limits.maxCorrelatedExposurePct) && limits.maxConcurrentPositions > 0
  }

  /** The `risk_config_changed` event. */
  datatype Change = Change(old_: RiskConfig, oldVersion: int, new_: RiskConfig, newVersion: int)

  /** A transaction between its version check and its UPDATE. */
  datatype Writer = Writer(read: RiskConfig, version: int, body: RiskConfig)

  datatype Shared = Shared(stored: RiskConfig, version: int, log: seq<Change>, writers: map<nat, Writer>)

  datatype WriterEvent =
    | ReadVersion(writer: nat, body: RiskConfig, version: int)
    | Update(writer: nat)
    | Abandon(writer: nat)

  function WriterStep(s: Shared, e: WriterEvent): Shared {
    match e
    case ReadVersion(writer, body, version) =>
      if writer in s.writers || !InRange(body) || version != s.version then s
      else s.(writers := s.writers[writer := Writer(s.stored, s.version, body)])
    case Update(writer) =>
      if writer !in s.writers then s
      else
        var me := s.writers[writer];
        var rest := s.writers - {writer};
        if me.version != s.version || !InRange(StoredLimits(me.body)) then s.(writers := rest)
        else Shared(StoredLimits(me.body), me.version + 1,
                    s.log + [Change(me.read, me.version, me.body, me.version + 1)], rest)
    case Abandon(writer) => s.(writers := s.writers - {writer})
  }

  function WriterExec(s: Shared, run: seq<WriterEvent>): Shared
    decreases |run|
  {
    if run == [] then s else WriterStep(WriterExec(s, run[..|run| - 1]), run[|run| - 1])
  }

  /** Rows are born with version 1. */
  function Fresh(initial: RiskConfig): Shared {
    Shared(initial, 1, [], map[])
  }

  /** The stored limits of version `v`, read off the log. */
  function AtVersion(initial: RiskConfig, log: seq<Change>, v: int): RiskConfig
    requires 1 <= v <= |log| + 1
  {
    if v == 1 then initial else StoredLimits(log[v - 2].new_)
  }

  ghost predicate GaplessChain(initial: RiskConfig, log: seq<Change>) {
    forall i {:trigger log[i]} :: 0 <= i < |log| ==>
      && log[i].oldVersion == i + 1 && log[i].newVersion == i + 2
      && log[i].old_ == AtVersion(initial, log, i + 1)
      && InRange(log[i].new_) && InRange(StoredLimits(log[i].new_))
  }

  ghost predicate WriterOk(initial: RiskConfig, s: Shared, me: Writer) {
    1 <= me.version <= |s.log| + 1 && me.read == AtVersion(initial, s.log, me.version) && InRange(me.body)
  }

  ghost predicate SharedOk(initial: RiskConfig, s: Shared) {
    && GaplessChain(initial, s.log)
    && s.version == |s.log| + 1
    && s.stored == AtVersion(initial, s.log, s.version)
    && forall k {:trigger s.writers[k]} :: k in s.writers ==> WriterOk(initial, s, s.writers[k])
  }

  lemma LongerLog(initial: RiskConfig, log: seq<Change>, change: Change)
    ensures forall v :: 1 <= v <= |log| + 1 ==> AtVersion(initial, log + [change], v) == AtVersion(initial, log, v)
  {
    forall v | 1 <= v <= |log| + 1
      ensures AtVersion(initial, log + [change], v) == AtVersion(initial, log, v)
    {
      assert v == 1 || (log + [change])[v - 2] == log[v - 2];
    }
  }

  lemma ChainGrows(initial: RiskConfig, log: seq<Change>, change: Change)
    requires GaplessChain(initial, log)
    requires change.oldVersion == |log| + 1 && change.newVersion == |log| + 2
    requires change.old_ == AtVersion(initial, log, |log| + 1)
    requires InRange(change.new_) && InRange(StoredLimits(change.new_))
    ensures GaplessChain(initial, log + [change])
    ensures AtVersion(initial, log + [change], |log| + 2) == StoredLimits(change.new_)
  {
    LongerLog(initial, log, change);
    forall i | 0 <= i < |log| + 1
      ensures (log + [change])[i].old_ == AtVersion(initial, log + [change], i + 1)
    {
      assert (log + [change])[i] == if i < |log| then log[i] else change;
    }
  }

  lemma WritersStayOk(initial: RiskConfig, s: Shared, s': Shared, change: Change)
    requires SharedOk(initial, s) && s'.log == s.log + [change] && s'.writers.Keys <= s.writers.Keys
    requires forall k :: k in s'.writers ==> s'.writers[k] == s.writers[k]
    ensures forall k :: k in s'.writers ==> WriterOk(initial, s', s'.writers[k])
  {
    LongerLog(initial, s.log, change);
    forall k | k in s'.writers
      ensures WriterOk(initial, s', s'.writers[k])
    {
      assert WriterOk(initial, s, s.writers[k]);
    }
  }

  /** An update that wins extends the chain by one link. */
  lemma WinnerOk(initial: RiskConfig, s: Shared, writer: nat)
    requires SharedOk(initial, s) && writer in s.writers
    requires s.writers[writer].version == s.version && InRange(StoredLimits(s.writers[writer].body))
    ensures SharedOk(initial, WriterStep(s, Update(writer)))
  {
    var me := s.writers[writer];
    var change := Change(me.read, me.version, me.body, me.version + 1);
    var s' := Shared(StoredLimits(me.body), me.version + 1, s.log + [change], s.writers - {writer});
    assert WriterStep(s, Update(writer)) == s';
    assert WriterOk(initial, s, me);
    ChainGrows(initial, s.log, change);
    WritersStayOk(initial, s, s', change);
  }

  lemma WriterStepOk(initial: RiskConfig, s: Shared, e: WriterEvent)
    requires SharedOk(initial, s)
    ensures SharedOk(initial, WriterStep(s, e))
  {
    var s' := WriterStep(s, e);
    if e.Update? && e.writer in s.writers && s.writers[e.writer].version == s.version
       && InRange(StoredLimits(s.writers[e.writer].body)) {
      WinnerOk(initial, s, e.writer);
    } else {
      forall k | k in s'.writers
        ensures WriterOk(initial, s', s'.writers[k])
      {
        assert k in s.writers ==> WriterOk(initial, s, s.writers[k]);
      }
    }
  }

  lemma {:induction false} WriterExecOk(initial: RiskConfig, s: Shared, run: seq<WriterEvent>)
    requires SharedOk(initial, s)
    ensures SharedOk(initial, WriterExec(s, run))
    decreases |run|
  {
    if run != [] {
      WriterExecOk(initial, s, run[..|run| - 1]);
      WriterStepOk(initial, WriterExec(s, run[..|run| - 1]), run[|run| - 1]);
    }
  }

  /** However writers interleave, the logged changes form a gapless chain of
    versions 1, 2, 3, ..., the old values of each are the stored values of the
    version before, and the stored row is the last of them. */
  lemma ChangesFormGaplessChain(initial: RiskConfig, run: seq<WriterEvent>)
    ensures var s := WriterExec(Fresh(initial), run);
      && s.version == |s.log| + 1
      && (forall i :: 0 <= i < |s.log| ==>
            && s.log[i].oldVersion == i + 1 && s.log[i].newVersion == i + 2
            && s.log[i].old_ == (if i == 0 then initial else StoredLimits(s.log[i - 1].new_)))
      && s.stored == (if s.log == [] then initial else StoredLimits(s.log[|s.log| - 1].new_))
      && (s.log != [] ==> InRange(s.stored))
  {
    WriterExecOk(initial, Fresh(initial), run);
    SharedMeans(initial, WriterExec(Fresh(initial), run));
  }

  lemma SharedMeans(initial: RiskConfig, s: Shared)
    requires SharedOk(initial, s)
    ensures s.stored == (if s.log == [] then initial else StoredLimits(s.log[|s.log| - 1].new_))
    ensures s.log != [] ==> InRange(s.stored)
    ensures forall i :: 0 <= i < |s.log| ==>
      s.log[i].old_ == (if i == 0 then initial else StoredLimits(s.log[i - 1].new_))
  {
  }

  /** Of all writers that read the same version at most one is ever logged; an
    update that loses writes neither limits nor event. */
  lemma LosersWriteNothing(initial: RiskConfig, run: seq<WriterEvent>, writer: nat)
    requires writer in WriterExec(Fresh(initial), run).writers
    ensures var s := WriterExec(Fresh(initial), run);
      var s' := WriterStep(s, Update(writer));
      var me := s.writers[writer];
      && (s'.log != s.log ==> forall i :: 0 <= i < |s.log| ==> s.log[i].oldVersion != me.version)
      && ((exists i :: 0 <= i < |s.log| && s.log[i].oldVersion == me.version) ==>
            s'.stored == s.stored && s'.version == s.version && s'.log == s.log)
  {
    WriterExecOk(initial, Fresh(initial), run);
  }

  /** The percentages logged as new are the ones stored exactly when they have at
    most four decimals. */
  lemma StoredPctExact(pct: real)
    ensures StoredPct(pct) == pct <==> (pct * 10000.0).Floor as real == pct * 10000.0
  {
    var scaled := pct * 10000.0;
    var n := (scaled + 0.5).Floor;
    if scaled == scaled.Floor as real {
      assert (scaled.Floor as real + 0.5).Floor == scaled.Floor;
    }
    assert StoredPct(pct) * 10000.0 == n as real;
  }

  /** What a percent column keeps: the nearest four decimals, half of the last going up. */
  lemma StoredPctIsNearest(pct: real)
    ensures StoredPct(pct) - 0.00005 <= pct < StoredPct(pct) + 0.00005
    ensures StoredPct(StoredPct(pct)) == StoredPct(pct)
  {
    var n := (pct * 10000.0 + 0.5).Floor;
    assert StoredPct(pct) * 10000.0 == n as real;
    assert (n as real + 0.5).Floor == n;
  }

  /** Limits are accepted exactly when the percentages, as sent and as stored, are
    above 0 and at most 100 and the position count is positive. */
  lemma AcceptedExactly(body: RiskConfig)
    ensures InRange(body) && InRange(StoredLimits(body)) <==>
      && 0.00005 <= body.dailyMaxLossPct <= 100.0
      && 0.00005 <= body.maxPositionPctEquity <= 100.0
      && 0.00005 <= body.maxCorrelatedExposurePct <= 100.0
      && body.maxConcurrentPositions >= 1
  {
    AcceptedPct(body.dailyMaxLossPct);
    AcceptedPct(body.maxPositionPctEquity);
    AcceptedPct(body.maxCorrelatedExposurePct);
  }

  /** The smallest percentage that is not rounded to zero is half a unit. */
  lemma AcceptedPct(pct: real)
    ensures PctInRange(pct) && PctInRange(StoredPct(pct)) <==> 0.00005 <= pct <= 100.0
  {
    var n := (pct * 10000.0 + 0.5).Floor;
    assert StoredPct(pct) == n as real / 10000.0;
    if pct <= 100.0 {
      assert pct * 10000.0 + 0.5 < 1000001.0;
      assert n <= 1000000;
    }
    assert n >= 1 <==> pct * 10000.0 + 0.5 >= 1.0;
  }

  /** An update that wins stores each field of its request in its own column and
    logs what it replaced and what was requested. */
  lemma WinnerWrites(s: Shared, writer: nat)
    requires writer in s.writers && s.writers[writer].version == s.version
    requires InRange(StoredLimits(s.writers[writer].body))
    ensures var s', me := WriterStep(s, Update(writer)), s.writers[writer];
      && s'.version == s.version + 1
      && s'.stored.dailyMaxLossPct == StoredPct(me.body.dailyMaxLossPct)
      && s'.stored.maxPositionPctEquity == StoredPct(me.body.maxPositionPctEquity)
      && s'.stored.maxConcurrentPositions == me.body.maxConcurrentPositions
      && s'.stored.maxCorrelatedExposurePct == StoredPct(me.body.maxCorrelatedExposurePct)
      && s'.log == s.log + [Change(me.read, s.version, me.body, s.version + 1)]
  {
  }

  class RiskConfigStore {
    var stored: RiskConfig
    var version: int
    var log: seq<Change>

    ghost function View(): Shared
      reads this
    {
      Shared(stored, version, log, map[])
    }

    constructor (initial: RiskConfig)
      ensures View() == Fresh(initial)
    {
      stored, version, log := initial, 1, [];
    }

    /** put_risk_config without a competitor between its read and its UPDATE. */
    method PutRiskConfig(body: RiskConfig, bodyVersion: int) returns (newVersion: int, ok: bool)
      modifies this
      ensures View() == WriterStep(WriterStep(old(View()), ReadVersion(0, body, bodyVersion)), Update(0))
      ensures ok <==> InRange(body) && InRange(StoredLimits(body)) && bodyVersion == old(version)
      ensures ok ==>
        && stored.dailyMaxLossPct == StoredPct(body.dailyMaxLossPct)
        && stored.maxPositionPctEquity == StoredPct(body.maxPositionPctEquity)
        && stored.maxConcurrentPositions == body.maxConcurrentPositions
        && stored.maxCorrelatedExposurePct == StoredPct(body.maxCorrelatedExposurePct)
        && log == old(log) + [Change(old(stored), old(version), body, old(version) + 1)]
      ensures ok ==> newVersion == version == old(version) + 1
      ensures !ok ==> stored == old(stored) && version == old(version) && log == old(log)
    {
      newVersion, ok := version, false;
      ghost var reading := Shared(stored, version, log, map[0 := Writer(stored, version, body)]);
      assert reading.writers - {0} == map[];
      if !(0.0 < body.dailyMaxLossPct && body.dailyMaxLossPct <= 100.0)
         || !(0.0 < body.maxPositionPctEquity && body.maxPositionPctEquity <= 100.0)
         || !(0.0 < body.maxCorrelatedExposurePct && body.maxCorrelatedExposurePct <= 100.0)
         || body.maxConcurrentPositions <= 0 {
        return;
      }
      var old_, currentVersion := stored, version;
      if currentVersion != bodyVersion {
        return;
      }
      if !InRange(StoredLimits(body)) {
        return;
      }
      stored, version := StoredLimits(body), currentVersion + 1;
      log := log + [Change(old_, currentVersion, body, currentVersion + 1)];
      newVersion, ok := currentVersion + 1, true;
    }
  }
}
