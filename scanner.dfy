/**
 * The scan cycle: fetch with retry, then walk the items in fetch order,
 * recording each unseen id in the id table before posting its message and
 * pausing five seconds after each post.
 */
module Scanner {
  import opened Wrappers
  import opened Weibo
  import opened Embed
  import opened Effects
  import opened Retrying
  import Timestamp

  /** Seconds slept after each post. */
  const PauseSeconds: nat := 5

  // ---------------------------------------------------------------------
  // The id table

  /** What one check_id call returns, and the table after it. */
  datatype Checked = Checked(isNew: bool, seen: set<int>)

  /** check_id on id `id`: SELECT, and INSERT when the SELECT found nothing. */
  function Record(seen: set<int>, id: int): (r: Checked)
    ensures r.isNew <==> id !in seen
    ensures id in r.seen && r.seen - {id} == seen - {id}
  {
    if id in seen then Checked(false, seen) else Checked(true, seen + {id})
  }

  /** Checking the same id again reports it as old and changes nothing. */
  lemma RecordIdempotent(seen: set<int>, id: int)
    ensures Record(Record(seen, id).seen, id) == Checked(false, Record(seen, id).seen)
  {
  }

  // ---------------------------------------------------------------------
  // Which items a scan notifies

  /**
   * How parse_item turns an item into a message.  The pass is stated for
   * any such function; the scan uses BuildMessage.
   */
  type Builder = Item -> Result<Message, Timestamp.ConvertError>

  /** An item whose message can be built (its created_at converts). */
  predicate Converts(build: Builder, x: Item) {
    build(x).Success?
  }

  predicate AllConvert(build: Builder, xs: seq<Item>) {
    forall k :: 0 <= k < |xs| ==> Converts(build, xs[k])
  }

  /** The effects of notifying one item: record, post, pause. */
  function Notify(build: Builder, x: Item): seq<Event>
    requires Converts(build, x)
  {
    [Insert(x.id), Post(x.id, build(x).value), Sleep(PauseSeconds)]
  }

  function Notifications(build: Builder, xs: seq<Item>): seq<Event>
    requires AllConvert(build, xs)
  {
    if xs == [] then [] else Notify(build, xs[0]) + Notifications(build, xs[1..])
  }

  /** The items of `items` a scan over a table `seen` finds new, walking front to back. */
  function Fresh(seen: set<int>, items: seq<Item>): seq<Item>
    decreases |items|
  {
    if items == [] then []
    else if items[0].id in seen then Fresh(seen, items[1..])
    else [items[0]] + Fresh(seen + {items[0].id}, items[1..])
  }

  /**
   * The same selection stated independently: item k is kept exactly when
   * its id is neither in the table nor carried by an earlier item.
   */
  function Novel(seen: set<int>, items: seq<Item>): seq<Item>
    decreases |items|
  {
    if items == [] then []
    else
      var n := |items| - 1;
      var x := items[n];
      Novel(seen, items[..n]) + (if x.id in seen || x.id in Ids(items[..n]) then [] else [x])
  }

  lemma {:induction false} FreshAppend(seen: set<int>, a: seq<Item>, x: Item)
    ensures Fresh(seen, a + [x]) == Fresh(seen, a) + (if x.id in seen + Ids(a) then [] else [x])
    decreases |a|
  {
    if a == [] {
      assert a + [x] == [x];
    } else {
      assert (a + [x])[0] == a[0] && (a + [x])[1..] == a[1..] + [x];
      if a[0].id in seen {
        FreshAppend(seen, a[1..], x);
      } else {
        FreshAppend(seen + {a[0].id}, a[1..], x);
      }
    }
  }

  /** The front-to-back walk selects exactly the first occurrences of unseen ids, in order. */
  lemma {:induction false} FreshIsNovel(seen: set<int>, items: seq<Item>)
    ensures Fresh(seen, items) == Novel(seen, items)
    decreases |items|
  {
    if items != [] {
      var n := |items| - 1;
      FreshIsNovel(seen, items[..n]);
      assert items[..n] + [items[n]] == items;
      FreshAppend(seen, items[..n], items[n]);
    }
  }

  /**
   * The new items carry exactly the ids of the list that are not in the
   * table, each of them once.
   */
  lemma {:induction false} FreshIds(seen: set<int>, items: seq<Item>)
    ensures Ids(Fresh(seen, items)) == Ids(items) - seen
    ensures forall k :: 0 <= k < |Fresh(seen, items)| ==> Fresh(seen, items)[k].id !in seen
    ensures forall j, k :: 0 <= j < k < |Fresh(seen, items)| ==> Fresh(seen, items)[j].id != Fresh(seen, items)[k].id
    decreases |items|
  {
    if items != [] {
      var x := items[0];
      if x.id in seen {
        FreshIds(seen, items[1..]);
      } else {
        FreshIds(seen + {x.id}, items[1..]);
        var rest := Fresh(seen + {x.id}, items[1..]);
        assert Fresh(seen, items) == [x] + rest;
        assert ([x] + rest)[1..] == rest;
      }
    }
  }

  /** Against a table that already holds every id of the list, nothing is new. */
  lemma {:induction false} FreshAllSeen(seen: set<int>, items: seq<Item>)
    requires Ids(items) <= seen
    ensures Fresh(seen, items) == []
    decreases |items|
  {
    if items != [] {
      FreshAllSeen(seen, items[1..]);
    }
  }

  // ---------------------------------------------------------------------
  // One pass over the fetched list

  /**
   * The table after the pass, the effects in order, and the id of the item
   * whose created_at made parse_item raise, which ends the scan.
   */
  datatype Pass = Pass(seen: set<int>, events: seq<Event>, halted: Option<int>)

  function Then(before: seq<Event>, p: Pass): Pass {
    Pass(p.seen, before + p.events, p.halted)
  }

  lemma ThenThen(a: seq<Event>, b: seq<Event>, p: Pass)
    ensures Then(a, Then(b, p)) == Then(a + b, p)
  {
    assert a + (b + p.events) == (a + b) + p.events;
  }

  /**
   * Walks the list in order: a new id is recorded, then its message is
   * posted, then a 5-second pause follows; an id already recorded is skipped.
   */
  function Process(build: Builder, seen: set<int>, items: seq<Item>): Pass
    decreases |items|
  {
    if items == [] then Pass(seen, [], None)
    else
      var x := items[0];
      var checked := Record(seen, x.id);
      if !checked.isNew then Process(build, checked.seen, items[1..])
      else match build(x)
        case Failure(_) => Pass(checked.seen, [Insert(x.id)], Some(x.id))
        case Success(m) =>
          Then([Insert(x.id), Post(x.id, m), Sleep(PauseSeconds)], Process(build, checked.seen, items[1..]))
  }

  lemma ProcessSkip(build: Builder, seen: set<int>, items: seq<Item>)
    requires items != [] && items[0].id in seen
    ensures Process(build, seen, items) == Process(build, seen, items[1..])
  {
  }

  lemma ProcessNotifyStep(build: Builder, seen: set<int>, items: seq<Item>, m: Message)
    requires items != [] && items[0].id !in seen && build(items[0]) == Success(m)
    ensures Process(build, seen, items)
         == Then([Insert(items[0].id), Post(items[0].id, m), Sleep(PauseSeconds)], Process(build, seen + {items[0].id}, items[1..]))
  {
  }

  lemma ProcessHaltStep(build: Builder, seen: set<int>, items: seq<Item>)
    requires items != [] && items[0].id !in seen && build(items[0]).Failure?
    ensures Process(build, seen, items) == Pass(seen + {items[0].id}, [Insert(items[0].id)], Some(items[0].id))
  {
  }

  /**
   * When every new item converts, the pass notifies exactly the new items,
   * in fetch order, each recorded before it is posted and followed by a
   * pause, and leaves the table holding every id of the list.
   */
  lemma {:induction false} ProcessNotifiesFresh(build: Builder, seen: set<int>, items: seq<Item>)
    requires AllConvert(build, Fresh(seen, items))
    ensures Process(build, seen, items) == Pass(seen + Ids(items), Notifications(build, Fresh(seen, items)), None)
    decreases |items|
  {
    if items != [] {
      var x := items[0];
      if x.id in seen {
        assert Fresh(seen, items) == Fresh(seen, items[1..]);
        ProcessNotifiesFresh(build, seen, items[1..]);
      } else {
        var rest := Fresh(seen + {x.id}, items[1..]);
        assert Fresh(seen, items) == [x] + rest;
        assert forall k :: 0 <= k < |rest| ==> rest[k] == Fresh(seen, items)[k + 1];
        ProcessNotifiesFresh(build, seen + {x.id}, items[1..]);
        assert ([x] + rest)[1..] == rest;
      }
    }
  }

  /**
   * When the k-th new item is the first that does not convert, the pass
   * notifies the new items before it, then records its id and stops.
   */
  lemma {:induction false} ProcessHaltsAt(build: Builder, seen: set<int>, items: seq<Item>, k: nat)
    requires k < |Fresh(seen, items)| && !Converts(build, Fresh(seen, items)[k])
    requires forall j :: 0 <= j < k ==> Converts(build, Fresh(seen, items)[j])
    ensures var f := Fresh(seen, items);
      Process(build, seen, items)
        == Pass(seen + Ids(f[..k + 1]), Notifications(build, f[..k]) + [Insert(f[k].id)], Some(f[k].id))
    decreases |items|
  {
    var x := items[0];
    var f := Fresh(seen, items);
    if x.id in seen {
      assert f == Fresh(seen, items[1..]);
      ProcessSkip(build, seen, items);
      ProcessHaltsAt(build, seen, items[1..], k);
    } else {
      var rest := Fresh(seen + {x.id}, items[1..]);
      assert f == [x] + rest;
      if k == 0 {
        ProcessHaltStep(build, seen, items);
        assert f[..1] == [x];
        assert Ids([x]) == {x.id};
        assert Notifications(build, f[..0]) == [];
      } else {
        assert Converts(build, f[0]);
        ProcessNotifyStep(build, seen, items, build(x).value);
        assert forall j :: 0 <= j < k - 1 ==> rest[j] == f[j + 1];
        ProcessHaltsAt(build, seen + {x.id}, items[1..], k - 1);
        assert forall j :: 0 <= j < k - 1 ==> Converts(build, rest[j]);
        HaltedPrefix(build, x, rest, k);
      }
    }
  }

  /** Bookkeeping for ProcessHaltsAt: peeling the first new item off both prefixes. */
  lemma HaltedPrefix(build: Builder, x: Item, rest: seq<Item>, k: nat)
    requires 0 < k < |rest| + 1
    requires Converts(build, x) && forall j :: 0 <= j < k - 1 ==> Converts(build, rest[j])
    ensures Ids(([x] + rest)[..k + 1]) == {x.id} + Ids(rest[..k])
    ensures Notifications(build, ([x] + rest)[..k]) == Notify(build, x) + Notifications(build, rest[..k - 1])
  {
    var f := [x] + rest;
    assert f[..k + 1][0] == x && f[..k + 1][1..] == rest[..k];
    assert f[..k][0] == x && f[..k][1..] == rest[..k - 1];
  }

  /** The pass stops early exactly when some new item does not convert. */
  lemma {:induction false} ProcessHaltsIff(build: Builder, seen: set<int>, items: seq<Item>)
    ensures Process(build, seen, items).halted.None? <==> AllConvert(build, Fresh(seen, items))
    decreases |items|
  {
    if items != [] {
      var x := items[0];
      if x.id in seen {
        assert Fresh(seen, items) == Fresh(seen, items[1..]);
        ProcessSkip(build, seen, items);
        ProcessHaltsIff(build, seen, items[1..]);
      } else {
        var rest := Fresh(seen + {x.id}, items[1..]);
        assert Fresh(seen, items) == [x] + rest;
        if Converts(build, x) {
          var f := Fresh(seen, items);
          ProcessNotifyStep(build, seen, items, build(x).value);
          assert forall k :: 0 <= k < |rest| ==> rest[k] == f[k + 1];
          ProcessHaltsIff(build, seen + {x.id}, items[1..]);
          assert Process(build, seen, items).halted == Process(build, seen + {x.id}, items[1..]).halted;
          if AllConvert(build, rest) {
            forall k | 0 <= k < |f|
              ensures Converts(build, f[k])
            {
              if k > 0 {
                assert f[k] == rest[k - 1];
              }
            }
          } else {
            var j :| 0 <= j < |rest| && !Converts(build, rest[j]);
            assert f[j + 1] == rest[j];
          }
        } else {
          ProcessHaltStep(build, seen, items);
          assert Fresh(seen, items)[0] == x;
        }
      }
    }
  }

  /**
   * The pass only adds ids of the list to the table, and when it stops
   * early the offending id is new, is recorded, and its insertion is the
   * last effect: no post is sent for it.
   */
  lemma {:induction false} ProcessRecords(build: Builder, seen: set<int>, items: seq<Item>)
    ensures var p := Process(build, seen, items);
      seen <= p.seen <= seen + Ids(items)
      && (p.halted.Some? ==>
            p.halted.value !in seen && p.halted.value in p.seen
            && p.events != [] && p.events[|p.events| - 1] == Insert(p.halted.value))
    decreases |items|
  {
    if items != [] {
      var x := items[0];
      if x.id in seen {
        ProcessSkip(build, seen, items);
        ProcessRecords(build, seen, items[1..]);
      } else if Converts(build, x) {
        ProcessNotifyStep(build, seen, items, build(x).value);
        ProcessRecords(build, seen + {x.id}, items[1..]);
      } else {
        ProcessHaltStep(build, seen, items);
      }
    }
  }

  lemma {:induction false} ProcessAllSeen(build: Builder, seen: set<int>, items: seq<Item>)
    requires Ids(items) <= seen
    ensures Process(build, seen, items) == Pass(seen, [], None)
    decreases |items|
  {
    if items != [] {
      ProcessAllSeen(build, seen, items[1..]);
    }
  }

  /** A pass that ran to the end, run again over the same list, notifies nothing and changes nothing. */
  lemma ProcessReplay(build: Builder, seen: set<int>, items: seq<Item>)
    requires Process(build, seen, items).halted.None?
    ensures var after := Process(build, seen, items).seen;
      Process(build, after, items) == Pass(after, [], None)
  {
    ProcessHaltsIff(build, seen, items);
    ProcessNotifiesFresh(build, seen, items);
    ProcessAllSeen(build, seen + Ids(items), items);
  }

  /** Items 101 and 102 are fetched and 101 is already recorded: only 102 is notified and recorded. */
  lemma OneOfTwoScenario(build: Builder, seen: set<int>, x: Item, y: Item)
    requires x.id == 101 && y.id == 102 && 101 in seen && 102 !in seen && Converts(build, y)
    ensures Process(build, seen, [x, y])
         == Pass(seen + {102}, [Insert(102), Post(102, build(y).value), Sleep(5)], None)
  {
    assert [x, y][1..] == [y];
    assert [y][1..] == [];
    ProcessSkip(build, seen, [x, y]);
    ProcessNotifyStep(build, seen, [y], build(y).value);
  }

  // ---------------------------------------------------------------------
  // A whole scan

  datatype ScanStatus =
    | Completed            // every item was looked at
    | NoContent            // the retry loop gave up: "failed to get content"
    | Aborted(id: int)     // parse_item raised on this item

  datatype ScanRun = ScanRun(seen: set<int>, events: seq<Event>, status: ScanStatus)

  /** What scan() does to a table `seen`, given the fetcher. */
  function ScanSpec(seen: set<int>, feed: Feed): ScanRun {
    var fetched := Retry(feed);
    if fetched.content.Some? && fetched.content.value != [] then
      var p := Process(BuildMessage, seen, fetched.content.value);
      ScanRun(p.seen, fetched.trace + p.events, if p.halted.Some? then Aborted(p.halted.value) else Completed)
    else ScanRun(seen, fetched.trace, NoContent)
  }

  /**
   * When every fetch fails, the scan waits out its eleven attempts, leaves
   * the table as it was and posts nothing.
   */
  lemma ScanWhenFetchFails(seen: set<int>, feed: Feed)
    requires forall j :: 0 <= j <= MaxRetries ==> !Truthy(feed(j))
    ensures ScanSpec(seen, feed) == ScanRun(seen, Failures(11), NoContent)
  {
    RetryExhausted(feed);
  }

  /**
   * When the retry loop gives up, the scan leaves the table as it was and
   * its only effects are fetches and waits: nothing is recorded or posted.
   */
  lemma ScanWithoutContent(seen: set<int>, feed: Feed)
    requires Retry(feed).content.None?
    ensures ScanSpec(seen, feed) == ScanRun(seen, Retry(feed).trace, NoContent)
    ensures Quiet(ScanSpec(seen, feed).events)
  {
    RetryFromQuiet(feed, 0);
  }

  /**
   * When the fetch succeeds with `items` and every new item converts, the
   * scan notifies exactly the new items in fetch order and the table ends
   * up holding the old ids and every id of the list.
   */
  lemma ScanNotifiesFresh(seen: set<int>, feed: Feed)
    requires Retry(feed).content.Some?
    requires var f := Fresh(seen, Retry(feed).content.value);
      AllConvert(BuildMessage, f)
    ensures var items := Retry(feed).content.value;
      ScanSpec(seen, feed)
        == ScanRun(seen + Ids(items), Retry(feed).trace + Notifications(BuildMessage, Fresh(seen, items)), Completed)
  {
    RetryOutcome(feed);
    ProcessNotifiesFresh(BuildMessage, seen, Retry(feed).content.value);
  }

  /**
   * A scan that stopped on an item leaves that item's id recorded although
   * its message was never posted, so later scans skip it.
   */
  lemma ScanAbortedRecords(seen: set<int>, feed: Feed)
    requires ScanSpec(seen, feed).status.Aborted?
    ensures var run := ScanSpec(seen, feed);
      var id := run.status.id;
      id !in seen && id in run.seen && run.events[|run.events| - 1] == Insert(id)
      && ScanSpec(run.seen, feed).status != Aborted(id)
  {
    var items := Retry(feed).content.value;
    var run := ScanSpec(seen, feed);
    ProcessRecords(BuildMessage, seen, items);
    ProcessRecords(BuildMessage, run.seen, items);
  }

  /** A completed scan, replayed over the same fetch results, notifies nothing and changes nothing. */
  lemma ScanReplay(seen: set<int>, feed: Feed)
    requires ScanSpec(seen, feed).status == Completed
    ensures var after := ScanSpec(seen, feed).seen;
      ScanSpec(after, feed) == ScanRun(after, Retry(feed).trace, Completed)
  {
    ProcessReplay(BuildMessage, seen, Retry(feed).content.value);
  }

  // ---------------------------------------------------------------------
  // The effect log of a whole run

  /**
   * Every inserted id is in the table and no id is inserted twice; every
   * post comes right after the insertion of its own id and right before a
   * pause.  That no id is posted twice follows: see ValidLogPostsOnce.
   */
  ghost predicate ValidLog(log: seq<Event>, seen: set<int>) {
    (forall k :: 0 <= k < |log| && log[k].Insert? ==> log[k].id in seen)
    && (forall k, l :: 0 <= k < l < |log| && log[k].Insert? && log[l].Insert? ==> log[k].id != log[l].id)
    && (forall k :: 0 <= k < |log| && log[k].Post? ==>
          0 < k && log[k - 1] == Insert(log[k].id) && k + 1 < |log| && log[k + 1] == Sleep(PauseSeconds))
  }

  /** A valid log notifies each id at most once. */
  lemma ValidLogPostsOnce(log: seq<Event>, seen: set<int>)
    requires ValidLog(log, seen)
    ensures forall k, l :: 0 <= k < l < |log| && log[k].Post? && log[l].Post? ==> log[k].id != log[l].id
  {
    forall k, l | 0 <= k < l < |log| && log[k].Post? && log[l].Post?
      ensures log[k].id != log[l].id
    {
      assert log[k - 1] == Insert(log[k].id);
      assert log[l - 1] == Insert(log[l].id);
    }
  }

  /** No event of a retry trace touches the table or the webhook. */
  predicate Quiet(trace: seq<Event>) {
    forall k :: 0 <= k < |trace| ==> trace[k] == Fetch || trace[k].Sleep?
  }

  lemma {:induction false} RetryFromQuiet(feed: Feed, i: nat)
    requires i <= MaxRetries
    ensures Quiet(RetryFrom(feed, i).trace)
    decreases MaxRetries - i
  {
    if i < MaxRetries && !Truthy(feed(i)) {
      RetryFromQuiet(feed, i + 1);
    }
  }

  lemma ValidLogQuiet(log: seq<Event>, seen: set<int>, trace: seq<Event>)
    requires ValidLog(log, seen) && Quiet(trace)
    ensures ValidLog(log + trace, seen)
  {
    var all := log + trace;
    forall k | 0 <= k < |all| && all[k].Post?
      ensures 0 < k && all[k - 1] == Insert(all[k].id) && k + 1 < |all| && all[k + 1] == Sleep(PauseSeconds)
    {
      assert k < |log|;
    }
  }

  lemma ValidLogInsert(log: seq<Event>, seen: set<int>, id: int)
    requires ValidLog(log, seen) && id !in seen
    ensures ValidLog(log + [Insert(id)], seen + {id})
  {
    var all := log + [Insert(id)];
    forall k | 0 <= k < |all| && all[k].Post?
      ensures 0 < k && all[k - 1] == Insert(all[k].id) && k + 1 < |all| && all[k + 1] == Sleep(PauseSeconds)
    {
      assert k < |log|;
    }
  }

  /**
   * Posting the id that was just inserted keeps the log valid: an earlier
   * post of it would sit after an earlier insertion of it.
   */
  lemma ValidLogPost(log: seq<Event>, seen: set<int>, id: int, m: Message)
    requires ValidLog(log, seen) && log != [] && log[|log| - 1] == Insert(id)
    ensures ValidLog(log + [Post(id, m), Sleep(PauseSeconds)], seen)
  {
    var all := log + [Post(id, m), Sleep(PauseSeconds)];
    var n := |log|;
    forall k | 0 <= k < |all| && all[k].Post?
      ensures 0 < k && all[k - 1] == Insert(all[k].id) && k + 1 < |all| && all[k + 1] == Sleep(PauseSeconds)
    {
      if k < n {
        assert log[k].Post?;
      }
    }
  }

  // ---------------------------------------------------------------------
  // The scrapper object

  class WeiboScrapper {
    /** The ids in the `weibo` table. */
    var seen: set<int>
    /** Every effect so far, in order. */
    ghost var log: seq<Event>

    ghost predicate Valid()
      reads this
    {
      ValidLog(log, seen)
    }

    /** Opens the table, which may already hold ids from earlier runs. */
    constructor (stored: set<int>)
      ensures Valid() && seen == stored && log == []
    {
      seen := stored;
      log := [];
    }

    /**
     * True exactly when the id was not in the table; afterwards it is, and
     * nothing else changed.
     */
    method CheckId(item: Item) returns (isNew: bool)
      requires Valid()
      modifies this
      ensures Valid()
      ensures Checked(isNew, seen) == Record(old(seen), item.id)
      ensures log == old(log) + (if isNew then [Insert(item.id)] else [])
    {
      if item.id in seen {
        isNew := false;
      } else {
        ValidLogInsert(log, seen, item.id);
        seen := seen + {item.id};
        log := log + [Insert(item.id)];
        isNew := true;
      }
    }

    /**
     * The scan: fetch with retry, and when the fetch produced a non-empty
     * list, dispatch it.
     */
    method Scan(feed: Feed) returns (status: ScanStatus)
      requires Valid()
      modifies this
      ensures Valid()
      ensures var run := ScanSpec(old(seen), feed);
        seen == run.seen && log == old(log) + run.events && status == run.status
    {
      var content, trace := GetContentLoop(feed);
      RetryFromQuiet(feed, 0);
      ValidLogQuiet(log, seen, trace);
      log := log + trace;
      if content.Some? && content.value != [] {
        var halted := Dispatch(content.value);
        status := if halted.Some? then Aborted(halted.value) else Completed;
      } else {
        status := NoContent;
      }
    }

    /**
     * The `for` loop of the scan: each item is checked against the table,
     * and each new one is posted and followed by a pause; a created_at that
     * does not convert ends the loop right after its id was recorded.
     */
    method Dispatch(items: seq<Item>) returns (halted: Option<int>)
      requires Valid()
      modifies this
      ensures Valid()
      ensures var p := Process(BuildMessage, old(seen), items);
        seen == p.seen && log == old(log) + p.events && halted == p.halted
    {
      ghost var start := seen;
      ghost var base := log;
      ghost var done: seq<Event> := [];
      assert items[0..] == items && done + Process(BuildMessage, seen, items).events == Process(BuildMessage, seen, items).events;
      var i := 0;
      while i < |items|
        invariant 0 <= i <= |items|
        invariant Valid()
        invariant log == base + done
        invariant Process(BuildMessage, start, items) == Then(done, Process(BuildMessage, seen, items[i..]))
      {
        var item := items[i];
        assert items[i..][0] == item && items[i..][1..] == items[i + 1..];
        ghost var wasSeen := seen;
        var isNew := CheckId(item);
        if isNew {
          var message := BuildMessage(item);
          if message.Failure? {
            ProcessHaltStep(BuildMessage, wasSeen, items[i..]);
            assert Process(BuildMessage, start, items) == Pass(seen, done + [Insert(item.id)], Some(item.id));
            return Some(item.id);
          }
          ProcessNotifyStep(BuildMessage, wasSeen, items[i..], message.value);
          ThenThen(done, [Insert(item.id), Post(item.id, message.value), Sleep(PauseSeconds)], Process(BuildMessage, seen, items[i + 1..]));
          ValidLogPost(log, seen, item.id, message.value);
          log := log + [Post(item.id, message.value), Sleep(PauseSeconds)];
          done := done + [Insert(item.id), Post(item.id, message.value), Sleep(PauseSeconds)];
        } else {
          ProcessSkip(BuildMessage, wasSeen, items[i..]);
        }
        i := i + 1;
      }
      assert items[i..] == [] && done + [] == done;
      halted := None;
    }
  }
}
