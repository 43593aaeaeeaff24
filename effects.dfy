/** The externally visible effects of a scan, in the order they happen. */
module Effects {
  import opened Embed

  datatype Event =
    | Fetch                              // one get_weibo_content_once call
    | Sleep(seconds: nat)                // time.sleep
    | Insert(id: int)                    // the id is inserted into the table and committed
    | Post(id: int, message: Message)    // requests.post to the message webhook

  /** How many times `e` occurs in `trace`. */
  function Occurrences(e: Event, trace: seq<Event>): nat {
    if trace == [] then 0
    else (if trace[0] == e then 1 else 0) + Occurrences(e, trace[1..])
  }

  lemma {:induction false} OccurrencesAppend(e: Event, a: seq<Event>, b: seq<Event>)
    ensures Occurrences(e, a + b) == Occurrences(e, a) + Occurrences(e, b)
  {
    if a != [] {
      assert (a + b)[0] == a[0] && (a + b)[1..] == a[1..] + b;
      OccurrencesAppend(e, a[1..], b);
    } else {
      assert a + b == b;
    }
  }
}
