/** The policy step of a sync cycle (go/internal/agentcore/sync.go): skipping an
    unchanged policy against applying it every time. */
module PolicyCache {
  import opened Text

  type Policy = string

  /** What one cycle meets: the fetched object, whether it parses, whether it
      applies, and whether its marker is written. */
  datatype Cycle = FetchFails | Fetched(etag: string, policy: Policy, parses: bool, applies: bool, marks: bool)

  datatype State = State(marker: string, applied: Option<Policy>)

  function Step(s: State, c: Cycle): State {
    match c
    case FetchFails => s
    case Fetched(etag, policy, parses, applies, marks) =>
      if !parses || (etag != "" && etag == s.marker) || !applies then s
      else State(if marks then etag else s.marker, Some(policy))
  }

  /** The cycle that never skips. */
  function ApplyAlways(applied: Option<Policy>, c: Cycle): Option<Policy> {
    match c
    case FetchFails => applied
    case Fetched(_, policy, parses, applies, _) => if parses && applies then Some(policy) else applied
  }

  class PolicyStep {
    var marker: string
    var applied: Option<Policy>

    method Run(c: Cycle) returns (failed: bool)
      modifies this
      ensures State(marker, applied) == Step(old(State(marker, applied)), c)
      ensures failed <==> c.FetchFails? || !c.parses || !((c.etag != "" && c.etag == old(marker)) || c.applies)
    {
      match c
      case FetchFails =>
        return true;
      case Fetched(etag, policy, parses, applies, marks) =>
        if !parses {
          return true;
        }
        if etag != "" && etag == marker {
          return false;
        }
        if !applies {
          return true;
        }
        applied := Some(policy);
        if marks {
          marker := etag;
        }
        return false;
    }
  }

  // ---- whole runs ----

  function Play(s: State, cs: seq<Cycle>): State {
    if cs == [] then s else Step(Play(s, cs[..|cs| - 1]), cs[|cs| - 1])
  }

  function PlayAlways(applied: Option<Policy>, cs: seq<Cycle>): Option<Policy> {
    if cs == [] then applied else ApplyAlways(PlayAlways(applied, cs[..|cs| - 1]), cs[|cs| - 1])
  }

  /** The agent's state before cycle k. */
  function At(s: State, cs: seq<Cycle>, k: nat): State
    requires k <= |cs|
  {
    Play(s, cs[..k])
  }

  /** After k cycles both have the same policy in force. */
  predicate Agrees(s: State, cs: seq<Cycle>, k: nat)
    requires k <= |cs|
  {
    At(s, cs, k).applied == PlayAlways(s.applied, cs[..k])
  }

  /** The cycle gets as far as applying what it fetched. */
  predicate Applies(s: State, c: Cycle) {
    c.Fetched? && c.parses && c.applies && !(c.etag != "" && c.etag == s.marker)
  }

  /** The cycle skips a policy, by its tag, while another one is in force. */
  predicate SkipsAnother(s: State, c: Cycle) {
    c.Fetched? && c.parses && c.applies && c.etag != "" && c.etag == s.marker && s.applied != Some(c.policy)
  }

  lemma Next(s: State, cs: seq<Cycle>, k: nat)
    requires k < |cs|
    ensures At(s, cs, k + 1) == Step(At(s, cs, k), cs[k])
    ensures PlayAlways(s.applied, cs[..k + 1]) == ApplyAlways(PlayAlways(s.applied, cs[..k]), cs[k])
  {
    assert cs[..k + 1][..k] == cs[..k];
  }

  lemma {:induction false} AgreesUpTo(s: State, cs: seq<Cycle>, k: nat)
    requires k <= |cs| && forall j :: 0 <= j < |cs| ==> !SkipsAnother(At(s, cs, j), cs[j])
    ensures Agrees(s, cs, k)
  {
    if k > 0 {
      AgreesUpTo(s, cs, k - 1);
      Next(s, cs, k - 1);
    }
  }

  /** Skipping leaves the same policy in force after every cycle as applying each
      time does, exactly when no cycle skips one while another is in force. */
  lemma AgreementExactly(s: State, cs: seq<Cycle>)
    ensures (forall k :: 0 <= k <= |cs| ==> Agrees(s, cs, k))
      <==> forall j :: 0 <= j < |cs| ==> !SkipsAnother(At(s, cs, j), cs[j])
  {
    if forall j :: 0 <= j < |cs| ==> !SkipsAnother(At(s, cs, j), cs[j]) {
      forall k | 0 <= k <= |cs|
        ensures Agrees(s, cs, k)
      {
        AgreesUpTo(s, cs, k);
      }
    } else {
      var j :| 0 <= j < |cs| && SkipsAnother(At(s, cs, j), cs[j]);
      Next(s, cs, j);
      assert !(Agrees(s, cs, j) && Agrees(s, cs, j + 1));
    }
  }

  // ---- what that means for markers ----

  /** A tag names its content. */
  predicate TagsNameContent(cs: seq<Cycle>) {
    forall i, j :: 0 <= i < |cs| && 0 <= j < |cs| && cs[i].Fetched? && cs[j].Fetched? && cs[i].etag == cs[j].etag != ""
      ==> cs[i].policy == cs[j].policy
  }

  /** The marker the run starts with, when there is one, names what is applied. */
  predicate Faithful(s: State, cs: seq<Cycle>) {
    s.marker != "" ==> forall i :: 0 <= i < |cs| && cs[i].Fetched? && cs[i].etag == s.marker ==>
      s.applied == Some(cs[i].policy)
  }

  /** Cycle i applies a policy and loses its marker; before anything else is
      applied, cycle j meets the tag the marker still holds, of another policy. */
  predicate LostMark(s: State, cs: seq<Cycle>, i: nat, j: nat)
    requires i < j < |cs|
  {
    && Applies(At(s, cs, i), cs[i]) && !cs[i].marks
    && (forall k :: i < k < j ==> !Applies(At(s, cs, k), cs[k]))
    && cs[j].Fetched? && cs[j].parses && cs[j].applies
    && cs[j].etag == At(s, cs, i).marker != "" && cs[j].policy != cs[i].policy
  }

  /** The state is that of the last application, if there was one. */
  lemma {:induction false} LastApplication(s: State, cs: seq<Cycle>, j: nat)
    requires j <= |cs|
    ensures (At(s, cs, j) == s && forall k :: 0 <= k < j ==> !Applies(At(s, cs, k), cs[k]))
         || exists i :: 0 <= i < j && IsLast(s, cs, i, j)
  {
    if j > 0 {
      var before := j - 1;
      LastApplication(s, cs, before);
      Next(s, cs, before);
      if Applies(At(s, cs, before), cs[before]) {
        assert IsLast(s, cs, before, j);
      } else if i :| 0 <= i < before && IsLast(s, cs, i, before) {
        assert IsLast(s, cs, i, j);
      }
    }
  }

  predicate IsLast(s: State, cs: seq<Cycle>, i: nat, j: nat)
    requires i < j <= |cs|
  {
    && Applies(At(s, cs, i), cs[i]) && At(s, cs, j) == Step(At(s, cs, i), cs[i])
    && forall k :: i < k < j ==> !Applies(At(s, cs, k), cs[k])
  }

  lemma {:induction false} StaysPut(s: State, cs: seq<Cycle>, i: nat, j: nat)
    requires i <= j <= |cs| && forall k :: i <= k < j ==> !Applies(At(s, cs, k), cs[k])
    ensures At(s, cs, j) == At(s, cs, i)
    decreases j - i
  {
    if i < j {
      StaysPut(s, cs, i, j - 1);
      Next(s, cs, j - 1);
    }
  }

  lemma SkipNeedsLostMark(s: State, cs: seq<Cycle>, j: nat)
    requires TagsNameContent(cs) && Faithful(s, cs) && j < |cs| && SkipsAnother(At(s, cs, j), cs[j])
    ensures exists i :: 0 <= i < j && LostMark(s, cs, i, j)
  {
    LastApplication(s, cs, j);
    var i :| 0 <= i < j && IsLast(s, cs, i, j);
    assert LostMark(s, cs, i, j);
  }

  lemma LostMarkSkips(s: State, cs: seq<Cycle>, i: nat, j: nat)
    requires i < j < |cs| && LostMark(s, cs, i, j)
    ensures SkipsAnother(At(s, cs, j), cs[j])
  {
    Next(s, cs, i);
    StaysPut(s, cs, i + 1, j);
  }

  /** If a tag names its content, skipping on an equal tag leaves the same policy
      in force after every cycle as applying each time does, if and only if no
      lost marker is followed by the tag that the marker still holds. */
  lemma SkippingRefinesApplying(s: State, cs: seq<Cycle>)
    requires TagsNameContent(cs) && Faithful(s, cs)
    ensures (forall k :: 0 <= k <= |cs| ==> Agrees(s, cs, k))
      <==> !exists i, j :: 0 <= i < j < |cs| && LostMark(s, cs, i, j)
  {
    AgreementExactly(s, cs);
    if i, j :| 0 <= i < j < |cs| && LostMark(s, cs, i, j) {
      LostMarkSkips(s, cs, i, j);
    }
    if j :| 0 <= j < |cs| && SkipsAnother(At(s, cs, j), cs[j]) {
      SkipNeedsLostMark(s, cs, j);
    }
  }

  /** With every marker written the two always agree. */
  lemma MarkedRunsAgree(s: State, cs: seq<Cycle>, k: nat)
    requires TagsNameContent(cs) && Faithful(s, cs) && k <= |cs|
    requires forall i :: 0 <= i < |cs| && cs[i].Fetched? ==> cs[i].marks
    ensures Agrees(s, cs, k)
  {
    SkippingRefinesApplying(s, cs);
    assert forall i, j :: 0 <= i < j < |cs| ==> !LostMark(s, cs, i, j);
  }

  /** A lost marker and the older tag again: the older policy is not put back. */
  lemma LostMarkerBreaksIt(one: Policy, two: Policy)
    requires one != two
    ensures var cs := [Fetched("1", one, true, true, true), Fetched("2", two, true, true, false),
      Fetched("1", one, true, true, true)];
      TagsNameContent(cs) && At(State("", None), cs, 3).applied == Some(two) && PlayAlways(None, cs) == Some(one)
  {
    var a, b := Fetched("1", one, true, true, true), Fetched("2", two, true, true, false);
    var s, cs := State("", None), [a, b, a];
    assert "1"[0] != "2"[0];
    assert cs[..0] == [] && cs[..3] == cs;
    Next(s, cs, 0);
    Next(s, cs, 1);
    Next(s, cs, 2);
  }
}
