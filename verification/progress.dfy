/** The progress values a configuration run reports (src/configure/mod.rs:28-36):
    0 is failure, 1..999 are checkpoints, 1000 is success. The checkpoints are
    fixed; which of them a run reaches depends on how far it gets. */
module Progress {

  /** Strictly increasing. */
  predicate Ascending(s: seq<int>)
  {
    forall i, j :: 0 <= i < j < |s| ==> s[i] < s[j]
  }

  predicate AllIn(s: seq<int>, allowed: set<int>)
  {
    forall i :: 0 <= i < |s| ==> s[i] in allowed
  }

  /** Every checkpoint `configure` can report. */
  const Checkpoints: set<int> := {1, 10, 20, 200, 300, 310, 320, 330, 340, 500, 600, 750, 900, 910, 920, 940}

  /** Checkpoints lie strictly between the failure value 0 and the success value 1000. */
  lemma CheckpointsInRange(s: seq<int>)
    requires AllIn(s, Checkpoints)
    ensures forall i :: 0 <= i < |s| ==> 0 < s[i] < 1000
  {
    forall i | 0 <= i < |s|
      ensures 0 < s[i] < 1000
    {
      assert s[i] in Checkpoints;
    }
  }

  /** The values reported after each of `k` online discovery fetches. */
  function CascadeSteps(k: nat): (r: seq<int>)
    ensures |r| == k
    ensures forall i :: 0 <= i < k ==> r[i] == 300 + 10 * i
  {
    seq(k, i => 300 + 10 * i)
  }

  /** The checkpoints after the trials begin: IMAP found, SMTP found, mailbox
      ready, parameters saved, key present. */
  const Trailer: seq<int> := [750, 900, 910, 920, 940]

  lemma AscendingAppend(a: seq<int>, b: seq<int>)
    requires Ascending(a) && Ascending(b)
    requires |a| > 0 && |b| > 0 ==> a[|a| - 1] < b[0]
    ensures Ascending(a + b)
  {
    var s := a + b;
    forall i, j | 0 <= i < j < |s|
      ensures s[i] < s[j]
    {
      if j < |a| {
      } else if i >= |a| {
        assert s[i] == b[i - |a|] && s[j] == b[j - |a|];
      } else {
        assert s[i] <= a[|a| - 1] by {
          if i < |a| - 1 { assert a[i] < a[|a| - 1]; }
        }
        assert b[0] <= s[j] by {
          if j > |a| { assert b[0] < b[j - |a|]; }
        }
      }
    }
  }

  lemma AllInAppend(a: seq<int>, b: seq<int>, allowed: set<int>)
    requires AllIn(a, allowed) && AllIn(b, allowed)
    ensures AllIn(a + b, allowed)
  {
    forall i | 0 <= i < |a + b|
      ensures (a + b)[i] in allowed
    {
      if i >= |a| {
        assert (a + b)[i] == b[i - |a|];
      }
    }
  }

  /** The cascade values are ascending checkpoints between 300 and 340. */
  lemma CascadeStepsAscending(k: nat)
    requires k <= 5
    ensures Ascending(CascadeSteps(k)) && AllIn(CascadeSteps(k), Checkpoints)
    ensures k > 0 ==> 300 <= CascadeSteps(k)[0] && CascadeSteps(k)[k - 1] <= 340
  {
    var s := CascadeSteps(k);
    forall i | 0 <= i < k
      ensures s[i] in Checkpoints
    {
      assert i == 0 || i == 1 || i == 2 || i == 3 || i == 4;
    }
  }

  /** The progress of a run that got past address parsing: the validation
      prefix, 200, the cascade values, 500 and 600, then as much of the
      trailer as the trials reached. */
  function LocatedProgress(prefix: seq<int>, k: nat, m: nat): seq<int>
    requires m <= |Trailer|
  {
    prefix + [200] + CascadeSteps(k) + [500, 600] + Trailer[..m]
  }

  /** Whatever the number of fetches and however far the trials get, such a
      run reports strictly increasing checkpoints, starting at 1, and a run
      that reaches the whole trailer ends at 940. */
  lemma LocatedProgressAscending(prefix: seq<int>, k: nat, m: nat)
    requires prefix == [1] || prefix == [1, 10, 20]
    requires k <= 5 && m <= |Trailer|
    ensures var s := LocatedProgress(prefix, k, m);
      && Ascending(s) && AllIn(s, Checkpoints) && s[0] == 1
      && (m == |Trailer| ==> s[|s| - 1] == 940)
  {
    var s1 := prefix + [200];
    AscendingAppend(prefix, [200]);
    AllInAppend(prefix, [200], Checkpoints);
    CascadeStepsAscending(k);
    var s2 := s1 + CascadeSteps(k);
    AscendingAppend(s1, CascadeSteps(k));
    AllInAppend(s1, CascadeSteps(k), Checkpoints);
    assert s2[|s2| - 1] <= 340 by {
      if k > 0 { assert s2[|s2| - 1] == CascadeSteps(k)[k - 1]; }
    }
    var s3 := s2 + [500, 600];
    AscendingAppend(s2, [500, 600]);
    AllInAppend(s2, [500, 600], Checkpoints);
    var t := Trailer[..m];
    assert AllIn(t, Checkpoints) && Ascending(t);
    AscendingAppend(s3, t);
    AllInAppend(s3, t, Checkpoints);
    assert LocatedProgress(prefix, k, m) == s3 + t;
  }
}
