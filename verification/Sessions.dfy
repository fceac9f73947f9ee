/**
 Sessionization: hits of one fingerprint that arrive in time order are grouped into the maximal
 runs whose neighbours are at most an hour apart, one finding for each run.
 */
module Sessions {
  import opened Sequences
  import opened Tables
  import opened Decision
  import opened Findings
  import opened FindingInvariants

  function PersistAll(s: Store, attempts: seq<Attempt>): Store {
    if attempts == [] then s else Persisted(PersistAll(s, attempts[..|attempts| - 1]), attempts[|attempts| - 1])
  }

  predicate Hits(a: Attempt, fp: Fingerprint) { a.fingerprint == Some(fp) }

  /** No window is evaluated twice. */
  ghost predicate NewKeys(s: Store, attempts: seq<Attempt>) {
    && (forall i :: 0 <= i < |attempts| ==> !Evaluated(s, attempts[i].key))
    && (forall i, j :: 0 <= i < j < |attempts| ==> attempts[i].key != attempts[j].key)
  }

  /** The hits of the fingerprint come in order of time, none before `first`. */
  ghost predicate InOrder(s: Store, attempts: seq<Attempt>, fp: Fingerprint, first: int) {
    && (forall i, j :: 0 <= i < j < |attempts| && Hits(attempts[i], fp) && Hits(attempts[j], fp)
                       ==> attempts[i].start <= attempts[j].start)
    && (forall i :: 0 <= i < |attempts| && Hits(attempts[i], fp) ==> first <= attempts[i].start)
    && NewKeys(s, attempts)
  }

  /** Sessions counted from the hits alone, and the time of the last hit. */
  datatype Tracker = Tracker(sessions: nat, last: Option<int>)

  predicate StartsSession(last: Option<int>, t: int) { last.None? || t > last.value + HOUR }

  function Track(attempts: seq<Attempt>, fp: Fingerprint): Tracker {
    if attempts == [] then Tracker(0, None)
    else
      var before, a := Track(attempts[..|attempts| - 1], fp), attempts[|attempts| - 1];
      if Hits(a, fp)
      then Tracker(before.sessions + (if StartsSession(before.last, a.start) then 1 else 0), Some(a.start))
      else before
  }

  /** The finding that the attempt at position i goes to. */
  function FindingAt(s: Store, attempts: seq<Attempt>, i: nat): nat
    requires i < |attempts| && attempts[i].fingerprint.Some?
  {
    Target(PersistAll(s, attempts[..i]), attempts[i])
  }

  /** The number of the session that the attempt at position i belongs to. */
  function SessionAt(attempts: seq<Attempt>, fp: Fingerprint, i: nat): nat
    requires i < |attempts|
  {
    Track(attempts[..i + 1], fp).sessions
  }

  /** The finding of the last hit. */
  function Latest(s: Store, attempts: seq<Attempt>, fp: Fingerprint): Option<nat> {
    if attempts == [] then None
    else
      var init, a := attempts[..|attempts| - 1], attempts[|attempts| - 1];
      if Hits(a, fp) then Some(Target(PersistAll(s, init), a)) else Latest(s, init, fp)
  }

  predicate ActiveOf(f: Finding, fp: Fingerprint) { f.fingerprint == fp && !Ended(f.state) }

  /** Every active finding of the fingerprint, but one, is out of reach of a hit at t or later. */
  ghost predicate Quiet(findings: seq<Finding>, fp: Fingerprint, current: Option<nat>, t: int) {
    forall i: nat :: i < |findings| && Some(i) != current && ActiveOf(findings[i], fp) ==> findings[i].lastSeen < t - HOUR
  }

  ghost predicate Follows(findings: seq<Finding>, fp: Fingerprint, current: Option<nat>, t: int) {
    && Quiet(findings, fp, current, t)
    && (current.Some? ==>
          && current.value < |findings| && ActiveOf(findings[current.value], fp)
          && findings[current.value].firstSeen <= findings[current.value].lastSeen == t)
  }

  function Bound(last: Option<int>, first: int): int { if last.Some? then last.value else first }

  lemma TargetOfHit(s: Store, a: Attempt, fp: Fingerprint, current: Option<nat>, t: int)
    requires Follows(s.findings, fp, current, t) && Hits(a, fp) && t <= a.start
    ensures Target(s, a) == if current.Some? && a.start <= t + HOUR then current.value else |s.findings|
  {
    MatchFound(s.findings, fp, a.start);
    forall i: nat | i < |s.findings| && Correlates(s.findings[i], fp, a.start) ensures Some(i) == current {
      assert ActiveOf(s.findings[i], fp);
    }
    if current.Some? && a.start <= t + HOUR {
      assert s.findings[current.value] in s.findings && Correlates(s.findings[current.value], fp, a.start);
    }
  }

  lemma HitFollows(s: Store, a: Attempt, fp: Fingerprint, current: Option<nat>, t: int)
    requires Follows(s.findings, fp, current, t) && Hits(a, fp) && t <= a.start && !Evaluated(s, a.key)
    ensures Follows(Persisted(s, a).findings, fp, Some(Target(s, a)), a.start)
  {
    TargetOfHit(s, a, fp, current, t);
  }

  lemma OtherFollows(s: Store, a: Attempt, fp: Fingerprint, current: Option<nat>, t: int)
    requires Follows(s.findings, fp, current, t) && !Hits(a, fp)
    ensures Follows(Persisted(s, a).findings, fp, current, t)
  {
  }

  predicate HasKey(attempts: seq<Attempt>, key: EvaluationKey) {
    exists i :: 0 <= i < |attempts| && attempts[i].key == key
  }

  lemma {:induction false} PersistedKeys(s: Store, attempts: seq<Attempt>, key: EvaluationKey)
    ensures Evaluated(PersistAll(s, attempts), key) <==> Evaluated(s, key) || HasKey(attempts, key)
  {
    if attempts != [] {
      var n := |attempts| - 1;
      PersistedKeys(s, attempts[..n], key);
      OneMoreKey(PersistAll(s, attempts[..n]), attempts[n], key);
    }
  }

  /** A transaction makes its own key evaluated and leaves every other key as it was. */
  lemma OneMoreKey(s: Store, a: Attempt, key: EvaluationKey)
    ensures Evaluated(Persisted(s, a), key) <==> Evaluated(s, key) || a.key == key
  {
    var before, after := s.evaluations, Persisted(s, a).evaluations;
    if !Evaluated(s, a.key) {
      var e := after[|before|];
      assert after == before + [e] && e.key == a.key;
      assert e in after;
    }
  }

  /** What the hits seen so far say about the stored findings. */
  lemma {:induction false} Following(s: Store, attempts: seq<Attempt>, fp: Fingerprint, first: int)
    requires InOrder(s, attempts, fp, first) && Quiet(s.findings, fp, None, first)
    ensures var last := Track(attempts, fp).last;
            && Follows(PersistAll(s, attempts).findings, fp, Latest(s, attempts, fp), Bound(last, first))
            && (Latest(s, attempts, fp).Some? <==> last.Some?)
            && (last.Some? ==> exists i :: 0 <= i < |attempts| && Hits(attempts[i], fp) && attempts[i].start == last.value)
  {
    if attempts != [] {
      var n := |attempts| - 1;
      var init, a := attempts[..n], attempts[n];
      Following(s, init, fp, first);
      var store, t := PersistAll(s, init), Bound(Track(init, fp).last, first);
      if Hits(a, fp) {
        PersistedKeys(s, init, a.key);
        HitFollows(store, a, fp, Latest(s, init, fp), t);
      } else {
        OtherFollows(store, a, fp, Latest(s, init, fp), t);
      }
    }
  }

  /** Where the next hit goes, in terms of the hits before it. */
  lemma NextHit(s: Store, attempts: seq<Attempt>, fp: Fingerprint, first: int, n: nat)
    requires InOrder(s, attempts, fp, first) && Quiet(s.findings, fp, None, first)
    requires n < |attempts| && Hits(attempts[n], fp)
    ensures var before, latest := Track(attempts[..n], fp).last, Latest(s, attempts[..n], fp);
            && (before.Some? <==> latest.Some?)
            && (latest.Some? ==> latest.value < |PersistAll(s, attempts[..n]).findings|)
            && FindingAt(s, attempts, n) ==
               (if StartsSession(before, attempts[n].start) then |PersistAll(s, attempts[..n]).findings| else latest.value)
            && SessionAt(attempts, fp, n) ==
               Track(attempts[..n], fp).sessions + (if StartsSession(before, attempts[n].start) then 1 else 0)
  {
    var init := attempts[..n];
    assert attempts[..n + 1][..n] == init;
    Following(s, init, fp, first);
    TargetOfHit(PersistAll(s, init), attempts[n], fp, Latest(s, init, fp), Bound(Track(init, fp).last, first));
  }

  /** Findings are numbered in the order of the sessions up to the last hit. */
  ghost predicate Numbered(finding: nat, session: nat, current: Option<nat>, sessions: nat) {
    && current.Some? && finding <= current.value && session <= sessions
    && (finding == current.value <==> session == sessions)
  }

  lemma {:induction false} EarlierHit(s: Store, attempts: seq<Attempt>, fp: Fingerprint, first: int, i: nat, n: nat)
    requires InOrder(s, attempts, fp, first) && Quiet(s.findings, fp, None, first)
    requires i < n <= |attempts| && Hits(attempts[i], fp)
    ensures Numbered(FindingAt(s, attempts, i), SessionAt(attempts, fp, i), Latest(s, attempts[..n], fp),
                     Track(attempts[..n], fp).sessions)
  {
    assert attempts[..n][..n - 1] == attempts[..n - 1];
    if i < n - 1 {
      EarlierHit(s, attempts, fp, first, i, n - 1);
      if Hits(attempts[n - 1], fp) {
        NextHit(s, attempts, fp, first, n - 1);
        Following(s, attempts[..n - 1], fp, first);
      }
    }
  }

  /** The last stored hit is the latest one. */
  lemma LatestAtHit(s: Store, attempts: seq<Attempt>, fp: Fingerprint, j: nat)
    requires j < |attempts| && Hits(attempts[j], fp)
    ensures Latest(s, attempts[..j + 1], fp) == Some(FindingAt(s, attempts, j))
  {
    assert attempts[..j + 1][..j] == attempts[..j];
  }

  /** Every attempt is stored, in order, with the finding it went to. */
  lemma {:induction false} StoredInOrder(s: Store, attempts: seq<Attempt>, i: nat)
    requires NewKeys(s, attempts) && i < |attempts|
    ensures |PersistAll(s, attempts).evaluations| == |s.evaluations| + |attempts|
    ensures PersistAll(s, attempts).evaluations[|s.evaluations| + i] ==
            EvaluationOf(attempts[i], if attempts[i].fingerprint.Some? then Some(FindingAt(s, attempts, i)) else None)
  {
    var n := |attempts| - 1;
    PersistedKeys(s, attempts[..n], attempts[n].key);
    if n > 0 {
      StoredInOrder(s, attempts[..n], if i < n then i else n - 1);
      assert i < n ==> attempts[..n][..i] == attempts[..i];
    }
  }

  /** The finding stored with the attempt at position i. */
  function StoredFinding(s: Store, attempts: seq<Attempt>, i: nat): Option<nat>
    requires |s.evaluations| + i < |PersistAll(s, attempts).evaluations|
  {
    PersistAll(s, attempts).evaluations[|s.evaluations| + i].finding
  }

  lemma FindingStored(s: Store, attempts: seq<Attempt>, fp: Fingerprint, first: int, i: nat)
    requires InOrder(s, attempts, fp, first) && i < |attempts| && Hits(attempts[i], fp)
    ensures |PersistAll(s, attempts).evaluations| == |s.evaluations| + |attempts|
    ensures StoredFinding(s, attempts, i) == Some(FindingAt(s, attempts, i))
  {
    StoredInOrder(s, attempts, i);
  }

  lemma SharedFinding(s: Store, attempts: seq<Attempt>, fp: Fingerprint, first: int, i: nat, j: nat)
    requires InOrder(s, attempts, fp, first) && Quiet(s.findings, fp, None, first)
    requires i < j < |attempts| && Hits(attempts[i], fp) && Hits(attempts[j], fp)
    ensures FindingAt(s, attempts, i) == FindingAt(s, attempts, j)
            <==> SessionAt(attempts, fp, i) == SessionAt(attempts, fp, j)
  {
    var f, g, m := FindingAt(s, attempts, i), FindingAt(s, attempts, j), SessionAt(attempts, fp, i);
    assert Numbered(f, m, Some(g), SessionAt(attempts, fp, j)) by {
      EarlierHit(s, attempts, fp, first, i, j + 1);
      LatestAtHit(s, attempts, fp, j);
    }
  }

  /** Two hits are stored with the same finding exactly when they belong to the same session. */
  lemma SessionsExact(s: Store, attempts: seq<Attempt>, fp: Fingerprint, first: int, i: nat, j: nat)
    requires InOrder(s, attempts, fp, first) && Quiet(s.findings, fp, None, first)
    requires i < j < |attempts| && Hits(attempts[i], fp) && Hits(attempts[j], fp)
    ensures |PersistAll(s, attempts).evaluations| == |s.evaluations| + |attempts|
    ensures StoredFinding(s, attempts, i) == StoredFinding(s, attempts, j)
            <==> SessionAt(attempts, fp, i) == SessionAt(attempts, fp, j)
  {
    FindingStored(s, attempts, fp, first, i);
    FindingStored(s, attempts, fp, first, j);
    SharedFinding(s, attempts, fp, first, i, j);
  }

  /** A hit opens a new finding exactly when it starts a session. */
  lemma SessionOpensFinding(s: Store, attempts: seq<Attempt>, fp: Fingerprint, first: int, j: nat)
    requires InOrder(s, attempts, fp, first) && Quiet(s.findings, fp, None, first)
    requires j < |attempts| && Hits(attempts[j], fp)
    ensures |PersistAll(s, attempts[..j + 1]).findings| > |PersistAll(s, attempts[..j]).findings|
            <==> StartsSession(Track(attempts[..j], fp).last, attempts[j].start)
  {
    NextHit(s, attempts, fp, first, j);
    PersistedKeys(s, attempts[..j], attempts[j].key);
    assert attempts[..j + 1][..j] == attempts[..j];
  }
}
