/**
 The job history of client_core.cpp as the code keeps it: an array of 16 ids that is shifted in
 place, proved to do what `Assignment.AddHistory` says of the whole client.
 */
module JobHistory {
  import opened Assignment

  /** `client_find_job_history`. */
  method FindJobHistory(history: array<nat>, jobid: nat, startat: nat) returns (found: bool)
    requires history.Length == MAX_HISTORY && startat <= MAX_HISTORY
    ensures found <==> jobid in history[startat..]
  {
    for i := startat to MAX_HISTORY
      invariant jobid !in history[startat..i]
    {
      if history[i] == jobid {
        return true;
      }
    }
    assert history[startat..MAX_HISTORY] == history[startat..];
    return false;
  }

  /** The shift loop: every slot takes its left neighbour's id. */
  method Shift(history: array<nat>, jobid: nat)
    requires history.Length == MAX_HISTORY
    modifies history
    ensures history[..] == [jobid] + old(history[..MAX_HISTORY - 1])
  {
    var i := MAX_HISTORY - 1;
    while i > 0
      invariant 0 <= i < MAX_HISTORY
      invariant forall k :: 0 <= k <= i ==> history[k] == old(history[k])
      invariant forall k :: i < k < MAX_HISTORY ==> history[k] == old(history[k - 1])
    {
      history[i] := history[i - 1];
      i := i - 1;
    }
    history[0] := jobid;
  }

  /** `client_add_job_history` keeps the array in step with the client's history. */
  method AddJobHistory(history: array<nat>, jobid: nat, ghost c: Client)
    requires history.Length == MAX_HISTORY && c.history == history[..]
    modifies history
    ensures history[..] == AddHistory(c, jobid).history
  {
    if jobid == 0 {
      return;
    }
    var found := FindJobHistory(history, jobid, 0);
    assert history[0..] == c.history;
    if found {
      return;
    }
    Shift(history, jobid);
  }
}
