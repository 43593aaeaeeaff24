/**
 * get_weibo_content_loop: call the fetcher until it returns a non-empty
 * list, waiting a minute after every failure, and give up right after the
 * eleventh failed attempt and its wait (the counter then exceeds 10).
 */
module Retrying {
  import opened Wrappers
  import opened Weibo
  import opened Effects

  const MaxRetries := 10
  /** Seconds slept after each failed attempt. */
  const RetryWait: nat := 60

  /**
   * The fetcher as an oracle: `feed(i)` is what the (i+1)-th call of this
   * retry sequence returns.
   */
  type Feed = nat -> Outcome

  /** The returned content and the effects the loop produced. */
  datatype RetryRun = RetryRun(content: Option<seq<Item>>, trace: seq<Event>)

  /** `n` failed attempts, each followed by its wait. */
  function Failures(n: nat): (t: seq<Event>)
    ensures |t| == 2 * n
    ensures forall k :: 0 <= k < |t| ==> t[k] == (if k % 2 == 0 then Fetch else Sleep(RetryWait))
  {
    if n == 0 then [] else Failures(n - 1) + [Fetch, Sleep(RetryWait)]
  }

  /** The loop from the moment `i` attempts have failed. */
  function RetryFrom(feed: Feed, i: nat): RetryRun
    requires i <= MaxRetries
    decreases MaxRetries - i
  {
    var content := feed(i);
    if Truthy(content) then RetryRun(Some(content.items), [Fetch])
    else if i + 1 > MaxRetries then RetryRun(None, [Fetch, Sleep(RetryWait)])
    else
      var later := RetryFrom(feed, i + 1);
      RetryRun(later.content, [Fetch, Sleep(RetryWait)] + later.trace)
  }

  function Retry(feed: Feed): RetryRun {
    RetryFrom(feed, 0)
  }

  /** The method the scrapper runs; its effects and result are those of Retry. */
  method GetContentLoop(feed: Feed) returns (content: Option<seq<Item>>, trace: seq<Event>)
    ensures content == Retry(feed).content && trace == Retry(feed).trace
  {
    var i := 0;
    trace := [];
    while true
      invariant 0 <= i <= MaxRetries
      invariant Retry(feed) == RetryRun(RetryFrom(feed, i).content, trace + RetryFrom(feed, i).trace)
      decreases MaxRetries - i
    {
      var fetched := feed(i);
      if Truthy(fetched) {
        trace := trace + [Fetch];
        content := Some(fetched.items);
        return;
      }
      ghost var before := trace;
      trace := trace + [Fetch, Sleep(RetryWait)];
      i := i + 1;
      if i > MaxRetries {
        content := None;
        return;
      }
      assert before + RetryFrom(feed, i - 1).trace == trace + RetryFrom(feed, i).trace;
    }
  }

  // ---------------------------------------------------------------------

  function Attempts(trace: seq<Event>): nat {
    Occurrences(Fetch, trace)
  }

  function Waits(trace: seq<Event>): nat {
    Occurrences(Sleep(RetryWait), trace)
  }

  lemma {:induction false} FailuresCount(n: nat)
    ensures Attempts(Failures(n)) == n && Waits(Failures(n)) == n
  {
    if n > 0 {
      FailuresCount(n - 1);
      OccurrencesAppend(Fetch, Failures(n - 1), [Fetch, Sleep(RetryWait)]);
      OccurrencesAppend(Sleep(RetryWait), Failures(n - 1), [Fetch, Sleep(RetryWait)]);
      PairCount();
    }
  }

  lemma PairCount()
    ensures Attempts([Fetch, Sleep(RetryWait)]) == 1 && Waits([Fetch, Sleep(RetryWait)]) == 1
    ensures Attempts([Fetch]) == 1 && Waits([Fetch]) == 0
  {
    var wait: seq<Event> := [Sleep(RetryWait)];
    SingleWaitCount();
    assert [Fetch, Sleep(RetryWait)][1..] == wait;
    assert [Fetch][1..] == [];
  }

  lemma SingleWaitCount()
    ensures Attempts([Sleep(RetryWait)]) == 0 && Waits([Sleep(RetryWait)]) == 1
  {
    var wait: seq<Event> := [Sleep(RetryWait)];
    assert wait[1..] == [];
    assert wait[0] == Sleep(RetryWait);
    assert Occurrences(Fetch, wait) == 0;
    assert Occurrences(Sleep(RetryWait), wait) == 1;
  }

  lemma {:induction false} FailuresCons(n: nat)
    ensures Failures(n + 1) == [Fetch, Sleep(RetryWait)] + Failures(n)
  {
    if n > 0 {
      FailuresCons(n - 1);
    }
  }

  lemma {:induction false} RetryFromFirstSuccess(feed: Feed, i: nat, k: nat)
    requires i <= k <= MaxRetries && Truthy(feed(k))
    requires forall j :: i <= j < k ==> !Truthy(feed(j))
    ensures RetryFrom(feed, i) == RetryRun(Some(feed(k).items), Failures(k - i) + [Fetch])
    decreases k - i
  {
    if i < k {
      RetryFromFirstSuccess(feed, i + 1, k);
      FailuresCons(k - i - 1);
    }
  }

  /**
   * When attempt k+1 is the first to bring a non-empty list, the loop makes
   * k+1 attempts and k waits and returns that list unchanged.
   */
  lemma RetryFirstSuccess(feed: Feed, k: nat)
    requires k <= MaxRetries && Truthy(feed(k))
    requires forall j :: 0 <= j < k ==> !Truthy(feed(j))
    ensures Retry(feed) == RetryRun(Some(feed(k).items), Failures(k) + [Fetch])
    ensures Attempts(Retry(feed).trace) == k + 1 && Waits(Retry(feed).trace) == k
  {
    RetryFromFirstSuccess(feed, 0, k);
    FailuresCount(k);
    OccurrencesAppend(Fetch, Failures(k), [Fetch]);
    OccurrencesAppend(Sleep(RetryWait), Failures(k), [Fetch]);
    PairCount();
  }

  lemma {:induction false} RetryFromExhausted(feed: Feed, i: nat)
    requires i <= MaxRetries
    requires forall j :: i <= j <= MaxRetries ==> !Truthy(feed(j))
    ensures RetryFrom(feed, i) == RetryRun(None, Failures(MaxRetries + 1 - i))
    decreases MaxRetries - i
  {
    if i < MaxRetries {
      RetryFromExhausted(feed, i + 1);
      FailuresCons(MaxRetries - i);
    }
  }

  /** When every attempt fails, the loop makes 11 attempts and 11 one-minute waits and returns None. */
  lemma RetryExhausted(feed: Feed)
    requires forall j :: 0 <= j <= MaxRetries ==> !Truthy(feed(j))
    ensures Retry(feed) == RetryRun(None, Failures(11))
    ensures Attempts(Retry(feed).trace) == 11 && Waits(Retry(feed).trace) == 11
  {
    RetryFromExhausted(feed, 0);
    FailuresCount(11);
  }

  lemma {:induction false} RetryFromOutcome(feed: Feed, i: nat)
    requires i <= MaxRetries
    ensures RetryFrom(feed, i).content.None? <==> forall j :: i <= j <= MaxRetries ==> !Truthy(feed(j))
    ensures RetryFrom(feed, i).content.Some? ==> RetryFrom(feed, i).content.value != []
    decreases MaxRetries - i
  {
    if i < MaxRetries && !Truthy(feed(i)) {
      RetryFromOutcome(feed, i + 1);
    }
  }

  /**
   * The loop gives up exactly when all eleven attempts fail, and whatever it
   * returns otherwise is a non-empty list.
   */
  lemma RetryOutcome(feed: Feed)
    ensures Retry(feed).content.None? <==> forall j :: 0 <= j <= MaxRetries ==> !Truthy(feed(j))
    ensures Retry(feed).content.Some? ==> Retry(feed).content.value != []
  {
    RetryFromOutcome(feed, 0);
  }

  lemma {:induction false} RetryFromTruthiness(f: Feed, g: Feed, i: nat)
    requires i <= MaxRetries
    requires forall n :: Truthy(f(n)) == Truthy(g(n)) && (Truthy(f(n)) ==> f(n) == g(n))
    ensures RetryFrom(f, i) == RetryFrom(g, i)
    decreases MaxRetries - i
  {
    if i < MaxRetries {
      RetryFromTruthiness(f, g, i + 1);
    }
  }

  /**
   * The loop looks at outcomes only through their truthiness: two fetchers
   * that differ only in how they fail (None or an empty list) give the same
   * run.
   */
  lemma RetryOnlySeesTruthiness(f: Feed, g: Feed)
    requires forall n :: Truthy(f(n)) == Truthy(g(n)) && (Truthy(f(n)) ==> f(n) == g(n))
    ensures Retry(f) == Retry(g)
  {
    RetryFromTruthiness(f, g, 0);
  }

  /** An empty list from the fetcher is retried exactly like None. */
  lemma EmptyListIsFailure(feed: Feed, k: nat)
    ensures Retry((n: nat) => if n == k then Fetched([]) else feed(n))
         == Retry((n: nat) => if n == k then Unavailable else feed(n))
  {
    RetryOnlySeesTruthiness((n: nat) => if n == k then Fetched([]) else feed(n),
                            (n: nat) => if n == k then Unavailable else feed(n));
  }

  /** Attempts 1 to 3 fail and attempt 4 succeeds: three waits, four attempts, that list returned. */
  lemma FourthAttemptScenario(feed: Feed)
    requires !Truthy(feed(0)) && !Truthy(feed(1)) && !Truthy(feed(2)) && Truthy(feed(3))
    ensures Retry(feed).content == Some(feed(3).items)
    ensures Attempts(Retry(feed).trace) == 4 && Waits(Retry(feed).trace) == 3
  {
    RetryFirstSuccess(feed, 3);
  }
}
