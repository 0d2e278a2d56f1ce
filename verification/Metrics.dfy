/** The load counters of the server. */
module LoadMetrics {

  const MAX_REQUESTS: int := 100

  /** get_metrics as a function of the two counters. */
  function Load(submitted: int, finished: int): real {
    if submitted == 0 then 0.0
    else if submitted - finished >= MAX_REQUESTS then 1.0
    else (submitted - finished) as real / MAX_REQUESTS as real
  }

  /** The load is a fraction exactly when nothing was submitted or no more requests have finished than were
      submitted; it is the share of the maximum that is under way, and full from there on. */
  lemma LoadIsFractionIff(submitted: nat, finished: nat)
    ensures 0.0 <= Load(submitted, finished) <= 1.0 <==> submitted == 0 || finished <= submitted
    ensures submitted == 0 ==> Load(submitted, finished) == 0.0
    ensures submitted > 0 ==> (Load(submitted, finished) == 1.0 <==> submitted - finished >= 100)
    ensures 0 < submitted < finished + 100 ==> Load(submitted, finished) * 100.0 == (submitted - finished) as real
  {
    var n := (submitted - finished) as real;
    assert n / 100.0 <= 1.0 <==> n <= 100.0;
    assert n / 100.0 == 1.0 <==> n == 100.0;
    assert 0.0 <= n / 100.0 <==> 0.0 <= n;
  }

  class Metrics {
    var requestSubmitted: nat
    var requestFinished: nat

    constructor ()
      ensures requestSubmitted == requestFinished == 0
    {
      requestSubmitted, requestFinished := 0, 0;
    }

    method SubmitRequest()
      modifies this
      ensures requestSubmitted == old(requestSubmitted) + 1 && requestFinished == old(requestFinished)
    {
      requestSubmitted := requestSubmitted + 1;
    }

    method FinishRequest()
      modifies this
      ensures requestFinished == old(requestFinished) + 1 && requestSubmitted == old(requestSubmitted)
    {
      requestFinished := requestFinished + 1;
    }

    function GetNumOngoing(): int
      reads this
    {
      requestSubmitted - requestFinished
    }

    method GetMetrics() returns (load: real)
      ensures load == Load(requestSubmitted, requestFinished)
      ensures requestSubmitted == 0 ==> load == 0.0
      ensures requestSubmitted > 0 && requestSubmitted - requestFinished >= 100 ==> load == 1.0
      ensures requestSubmitted > 0 && requestSubmitted - requestFinished < 100 ==>
        load * 100.0 == (requestSubmitted - requestFinished) as real
      ensures 0.0 <= load <= 1.0 <==> requestSubmitted == 0 || GetNumOngoing() >= 0
    {
      LoadIsFractionIff(requestSubmitted, requestFinished);
      if requestSubmitted == 0 {
        return 0.0;
      }
      var curNum := GetNumOngoing();
      if curNum >= MAX_REQUESTS {
        return 1.0;
      }
      return curNum as real / MAX_REQUESTS as real;
    }
  }
}
