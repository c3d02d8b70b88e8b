/** The queue of failed API posts of pkg/mainserverclient: retry.go, errors.go and client.go's send.

    RetryQueue and Client are the structs, with a ghost ledger of what became of every post. Clocks, the
    context and the answers of the main server are the Turn that an item meets when a flush reaches it.
    The Interleavings part splits Flush at its two critical sections, as the mutex does. */
module RetryQueue {
  import opened Common

  const MAX_RETRIES := 5
  const MAX_QUEUE_LEN := 50
  const RETRY_BACKOFF: seq<int> := [2, 5, 10, 30, 60]

  /** postDirect's errors: the main server's status, or anything else. */
  datatype PostError = APIError(statusCode: int) | OtherError

  predicate IsAuthError(e: PostError) {
    e.APIError? && e.statusCode == 401
  }

  predicate IsRetryable(e: PostError) {
    match e
    case APIError(code) => code >= 500 || code == 429
    case OtherError => true
  }

  datatype Post = Post(path: string, body: string)

  datatype QueuedPost = QueuedPost(post: Post, attempts: int, nextTry: int)

  /** What an item meets: whether the context is done, the clock, the post's error, the clock after the post. */
  datatype Turn = Turn(cancelled: bool, now: int, error: Option<PostError>, after: int)

  datatype Verdict = Waits | Delivered | AuthFailed | Dropped | Retries(item: QueuedPost)

  function BackoffIndex(attempts: int): int {
    if attempts >= |RETRY_BACKOFF| then |RETRY_BACKOFF| - 1 else attempts
  }

  /** One iteration of Flush's loop. */
  function Try(item: QueuedPost, turn: Turn): Verdict
    requires item.attempts >= 0
  {
    if turn.cancelled || turn.now < item.nextTry then Waits
    else if turn.error.None? then Delivered
    else if IsAuthError(turn.error.value) then AuthFailed
    else if item.attempts + 1 >= MAX_RETRIES || !IsRetryable(turn.error.value) then Dropped
    else Retries(QueuedPost(item.post, item.attempts + 1, turn.after + RETRY_BACKOFF[BackoffIndex(item.attempts + 1)]))
  }

  predicate Posted(v: Verdict) {
    !v.Waits?
  }

  /** 429, the 5xx statuses and errors without a status are worth another try. */
  predicate Transient(e: PostError) {
    e == OtherError || e == APIError(429) || (e.APIError? && e.statusCode >= 500)
  }

  /** Seconds until the next try, after so many attempts. */
  function Delay(attempts: nat): int {
    if attempts == 0 then 2 else if attempts == 1 then 5 else if attempts == 2 then 10 else if attempts == 3 then 30 else 60
  }

  /** An item is passed over while the context is done or its time has not come. A 401 is an auth error; any other
      error is retried later if it is transient and the item has had fewer than four attempts, and drops the item if not. */
  lemma TryMeaning(item: QueuedPost, turn: Turn)
    requires ItemOk(item)
    ensures var v, due := Try(item, turn), !turn.cancelled && item.nextTry <= turn.now;
            && (v.Waits? <==> !due)
            && (v.Delivered? <==> due && turn.error == None)
            && (v.AuthFailed? <==> due && turn.error == Some(APIError(401)))
            && (v.Retries? <==> due && turn.error.Some? && Transient(turn.error.value) && item.attempts < 4)
            && (v.Retries? ==> v.item == QueuedPost(item.post, item.attempts + 1, turn.after + Delay(item.attempts + 1)))
  {
    assert RETRY_BACKOFF[1] == 5 && RETRY_BACKOFF[2] == 10 && RETRY_BACKOFF[3] == 30 && RETRY_BACKOFF[4] == 60;
  }

  predicate ItemOk(item: QueuedPost) {
    0 <= item.attempts < MAX_RETRIES
  }

  predicate ItemsOk(items: seq<QueuedPost>) {
    forall i :: 0 <= i < |items| ==> ItemOk(items[i])
  }

  function Posts(items: seq<QueuedPost>): (posts: seq<Post>)
    ensures |posts| == |items|
  {
    seq(|items|, i requires 0 <= i < |items| => items[i].post)
  }

  // ----- The queue as a value -----

  /** The queue with its ledger: every post made from it, and of the posts enqueued, those delivered,
      dropped after a failure, and evicted as the oldest. */
  datatype Queue = Queue(items: seq<QueuedPost>, authBlocked: bool, enqueued: seq<Post>, posted: seq<Post>,
                         delivered: seq<Post>, dropped: seq<Post>, evicted: seq<Post>)

  /** What a flush makes of its pending items from the k-th on. */
  datatype Flushed = Flushed(remaining: seq<QueuedPost>, posted: seq<Post>, delivered: seq<Post>, dropped: seq<Post>,
                             authFailed: bool)

  function FlushFrom(pending: seq<QueuedPost>, turns: nat -> Turn, k: nat): Flushed
    requires ItemsOk(pending) && k <= |pending|
    decreases |pending| - k
  {
    if k == |pending| then Flushed([], [], [], [], false)
    else
      var item := pending[k];
      var v := Try(item, turns(k));
      if v.AuthFailed? then Flushed([], [item.post], [], [], true)
      else Lead(item, v, FlushFrom(pending, turns, k + 1))
  }

  /** One item's verdict, then the results of the rest. */
  function Lead(item: QueuedPost, v: Verdict, rest: Flushed): Flushed {
    match v
    case Waits => rest.(remaining := [item] + rest.remaining)
    case Delivered => rest.(posted := [item.post] + rest.posted, delivered := [item.post] + rest.delivered)
    case AuthFailed => rest.(posted := [item.post] + rest.posted, authFailed := true)
    case Dropped => rest.(posted := [item.post] + rest.posted, dropped := [item.post] + rest.dropped)
    case Retries(again) => rest.(posted := [item.post] + rest.posted, remaining := [again] + rest.remaining)
  }

  /** Flush with nothing in between. After an auth error the items are not written back. */
  function FlushOp(q: Queue, turns: nat -> Turn): Queue
    requires ItemsOk(q.items)
  {
    if q.authBlocked || q.items == [] then q
    else
      var r := FlushFrom(q.items, turns, 0);
      Queue(if r.authFailed then q.items else r.remaining, r.authFailed, q.enqueued, q.posted + r.posted,
            q.delivered + r.delivered, q.dropped + r.dropped, q.evicted)
  }

  function EnqueueOp(q: Queue, post: Post, now: int): Queue {
    if q.authBlocked then q
    else
      var full := |q.items| >= MAX_QUEUE_LEN;
      q.(items := (if full then q.items[1..] else q.items) + [QueuedPost(post, 0, now + RETRY_BACKOFF[0])],
         enqueued := q.enqueued + [post],
         evicted := q.evicted + if full then [q.items[0].post] else [])
  }

  // ----- The structs -----

  class RetryQueue {
    var items: seq<QueuedPost>
    var authBlocked: bool
    ghost var ledger: Queue

    /** At most fifty items, each with fewer than five attempts. */
    ghost predicate Valid()
      reads this
    {
      && |items| <= MAX_QUEUE_LEN && ItemsOk(items)
      && ledger.items == items && ledger.authBlocked == authBlocked
    }

    constructor ()
      ensures Valid() && ledger == Queue([], false, [], [], [], [], [])
    {
      items, authBlocked := [], false;
      ledger := Queue([], false, [], [], [], [], []);
    }

    method SetAuthBlocked(blocked: bool)
      requires Valid()
      modifies this
      ensures Valid() && ledger == old(ledger).(authBlocked := blocked)
    {
      authBlocked := blocked;
      ledger := ledger.(authBlocked := blocked);
    }

    method Enqueue(path: string, body: string, now: int)
      requires Valid()
      modifies this
      ensures Valid() && ledger == EnqueueOp(old(ledger), Post(path, body), now)
      ensures items == if old(authBlocked) then old(items)
                       else (if |old(items)| >= 50 then old(items)[1..] else old(items))
                            + [QueuedPost(Post(path, body), 0, now + 2)]
    {
      if authBlocked {
        return;
      }
      ledger := EnqueueOp(ledger, Post(path, body), now);
      var item := QueuedPost(Post(path, body), 0, now + RETRY_BACKOFF[0]);
      if |items| >= MAX_QUEUE_LEN {
        items := items[1..];
      }
      items := items + [item];
    }

    method Flush(turns: nat -> Turn) returns (n: nat)
      requires Valid()
      modifies this
      ensures Valid() && ledger == FlushOp(old(ledger), turns)
      ensures n == |items|
    {
      hide FlushFrom;
      if authBlocked || |items| == 0 {
        return |items|;
      }
      var pending := items;
      var remaining: seq<QueuedPost> := [];
      ghost var whole := FlushFrom(pending, turns, 0);
      ghost var done := Flushed([], [], [], [], false);
      ledger := FlushOp(ledger, turns);
      FlushShrinks(pending, turns, 0);
      for k := 0 to |pending|
        invariant items == pending == old(items) && !authBlocked && ledger == FlushOp(old(ledger), turns)
        invariant remaining == done.remaining && !done.authFailed
        invariant whole == After(done, FlushFrom(pending, turns, k))
      {
        var item := pending[k];
        assert ItemOk(item);
        FlushFromStep(done, pending, turns, k);
        done := Add(done, item, Try(item, turns(k)));
        if turns(k).cancelled {
          remaining := remaining + [item];
          continue;
        }
        if turns(k).now < item.nextTry {
          remaining := remaining + [item];
          continue;
        }
        var err := turns(k).error;
        if err.None? {
          continue;
        }
        if IsAuthError(err.value) {
          authBlocked := true;
          return |pending|;
        }
        var attempts := item.attempts + 1;
        if attempts >= MAX_RETRIES || !IsRetryable(err.value) {
          continue;
        }
        var idx := attempts;
        if idx >= |RETRY_BACKOFF| {
          idx := |RETRY_BACKOFF| - 1;
        }
        remaining := remaining + [QueuedPost(item.post, attempts, turns(k).after + RETRY_BACKOFF[idx])];
      }
      FlushFromEnd(done, pending, turns);
      items := remaining;
      n := |items|;
    }
  }

  /** A loop's results with one more item's verdict. */
  function Add(done: Flushed, item: QueuedPost, v: Verdict): Flushed {
    match v
    case Waits => done.(remaining := done.remaining + [item])
    case Delivered => done.(posted := done.posted + [item.post], delivered := done.delivered + [item.post])
    case AuthFailed => done.(posted := done.posted + [item.post], authFailed := true)
    case Dropped => done.(posted := done.posted + [item.post], dropped := done.dropped + [item.post])
    case Retries(again) => done.(posted := done.posted + [item.post], remaining := done.remaining + [again])
  }

  lemma FlushFromStep(done: Flushed, pending: seq<QueuedPost>, turns: nat -> Turn, k: nat)
    requires ItemsOk(pending) && k < |pending|
    ensures var v := Try(pending[k], turns(k));
            if v.AuthFailed? then FlushFrom(pending, turns, k).authFailed
            else After(done, FlushFrom(pending, turns, k))
                   == After(Add(done, pending[k], v), FlushFrom(pending, turns, k + 1))
  {
    var item, v := pending[k], Try(pending[k], turns(k));
    if !v.AuthFailed? {
      LeadAdd(done, item, v, FlushFrom(pending, turns, k + 1));
    }
  }

  lemma LeadAdd(done: Flushed, item: QueuedPost, v: Verdict, rest: Flushed)
    requires !v.AuthFailed?
    ensures After(done, Lead(item, v, rest)) == After(Add(done, item, v), rest)
  {
    AfterStep(done, rest, item);
    if v.Retries? {
      AfterStep(done, rest, v.item);
    }
  }

  lemma FlushFromEnd(done: Flushed, pending: seq<QueuedPost>, turns: nat -> Turn)
    requires ItemsOk(pending) && !done.authFailed
    ensures After(done, FlushFrom(pending, turns, |pending|)) == done
  {
    assert done.remaining + [] == done.remaining && done.posted + [] == done.posted;
    assert done.delivered + [] == done.delivered && done.dropped + [] == done.dropped;
  }

  /** A loop's results so far, then the results of the rest. */
  function After(done: Flushed, rest: Flushed): Flushed {
    Flushed(done.remaining + rest.remaining, done.posted + rest.posted, done.delivered + rest.delivered,
            done.dropped + rest.dropped, rest.authFailed)
  }

  lemma AfterStep(done: Flushed, rest: Flushed, item: QueuedPost)
    ensures done.remaining + ([item] + rest.remaining) == (done.remaining + [item]) + rest.remaining
    ensures done.posted + ([item.post] + rest.posted) == (done.posted + [item.post]) + rest.posted
    ensures done.delivered + ([item.post] + rest.delivered) == (done.delivered + [item.post]) + rest.delivered
    ensures done.dropped + ([item.post] + rest.dropped) == (done.dropped + [item.post]) + rest.dropped
  {
  }

  lemma {:induction false} FlushShrinks(pending: seq<QueuedPost>, turns: nat -> Turn, k: nat)
    requires ItemsOk(pending) && k <= |pending|
    ensures |FlushFrom(pending, turns, k).remaining| <= |pending| - k
    ensures ItemsOk(FlushFrom(pending, turns, k).remaining)
    decreases |pending| - k
  {
    if k < |pending| {
      FlushShrinks(pending, turns, k + 1);
    }
  }

  predicate IsDelivered(v: Verdict) {
    v.Delivered?
  }

  predicate IsDropped(v: Verdict) {
    v.Dropped?
  }

  /** The posts of the items from k up to end whose verdict is wanted, in order. */
  function Where(items: seq<QueuedPost>, turns: nat -> Turn, wanted: Verdict -> bool, k: nat, end: nat): seq<Post>
    requires ItemsOk(items) && k <= end <= |items|
    decreases end - k
  {
    if k == end then []
    else (if wanted(Try(items[k], turns(k))) then [items[k].post] else []) + Where(items, turns, wanted, k + 1, end)
  }

  /** The items that wait, and those to be tried again as they are then, in order. */
  function Kept(items: seq<QueuedPost>, turns: nat -> Turn, k: nat): seq<QueuedPost>
    requires ItemsOk(items) && k <= |items|
    decreases |items| - k
  {
    if k == |items| then []
    else
      var v := Try(items[k], turns(k));
      (if v.Waits? then [items[k]] else if v.Retries? then [v.item] else []) + Kept(items, turns, k + 1)
  }

  /** Every item before the first auth error is posted if it is due, delivered if answered without error, and kept or
      dropped as its verdict says; the one with the auth error is posted and none after it. */
  lemma {:induction false} FlushMeaning(items: seq<QueuedPost>, turns: nat -> Turn, k: nat, end: nat)
    requires ItemsOk(items) && k <= end <= |items|
    requires forall i :: k <= i < end ==> !Try(items[i], turns(i)).AuthFailed?
    requires end == |items| || Try(items[end], turns(end)).AuthFailed?
    ensures var r := FlushFrom(items, turns, k);
            && (r.authFailed <==> end < |items|)
            && r.posted == Where(items, turns, Posted, k, end) + (if end < |items| then [items[end].post] else [])
            && r.delivered == Where(items, turns, IsDelivered, k, end)
            && r.dropped == Where(items, turns, IsDropped, k, end)
            && (end == |items| ==> r.remaining == Kept(items, turns, k))
    decreases end - k
  {
    hide Try;
    if k < end {
      FlushMeaning(items, turns, k + 1, end);
      var more := if end < |items| then [items[end].post] else [];
      Regroup([items[k].post], Where(items, turns, Posted, k + 1, end), more);
      assert [] + FlushFrom(items, turns, k + 1).remaining == FlushFrom(items, turns, k + 1).remaining;
      assert [] + FlushFrom(items, turns, k + 1).posted == FlushFrom(items, turns, k + 1).posted;
      assert [] + FlushFrom(items, turns, k + 1).delivered == FlushFrom(items, turns, k + 1).delivered;
      assert [] + FlushFrom(items, turns, k + 1).dropped == FlushFrom(items, turns, k + 1).dropped;
    }
  }

  // ----- Conservation over sequential runs -----

  /** a is b with some elements left out. */
  ghost predicate InOrderWithin<T(!new)>(a: seq<T>, b: seq<T>) {
    exists at: seq<int> :: Picks(a, b, at)
  }

  ghost predicate Picks<T>(a: seq<T>, b: seq<T>, at: seq<int>) {
    && |at| == |a| && Ascending(at)
    && forall i :: 0 <= i < |a| ==> 0 <= at[i] < |b| && a[i] == b[at[i]]
  }

  /** Every enqueued post is delivered, dropped, evicted or pending, and the pending ones are in the order in which
      they were enqueued. */
  ghost predicate Conserved(q: Queue) {
    && (forall p :: Count(q.enqueued, p)
                      == Count(q.delivered, p) + Count(q.dropped, p) + Count(q.evicted, p) + Count(Posts(q.items), p))
    && InOrderWithin(Posts(q.items), q.enqueued)
  }

  datatype Op = Enqueue(post: Post, now: int) | Flush(turns: nat -> Turn) | SetAuthBlocked(blocked: bool)

  ghost predicate QueueOk(q: Queue) {
    |q.items| <= MAX_QUEUE_LEN && ItemsOk(q.items)
  }

  ghost function ApplyOp(q: Queue, op: Op): (r: Queue)
    requires QueueOk(q)
    ensures QueueOk(r)
  {
    match op
    case Enqueue(post, now) => EnqueueOp(q, post, now)
    case Flush(turns) => FlushShrinks(q.items, turns, 0); FlushOp(q, turns)
    case SetAuthBlocked(blocked) => q.(authBlocked := blocked)
  }

  /** The flush posts something and gets an auth error. */
  predicate AuthFails(q: Queue, turns: nat -> Turn)
    requires ItemsOk(q.items)
  {
    !q.authBlocked && FlushFrom(q.items, turns, 0).authFailed
  }

  ghost function RunOps(q: Queue, ops: seq<Op>): (r: Queue)
    requires QueueOk(q)
    ensures QueueOk(r)
    decreases |ops|
  {
    if ops == [] then q else RunOps(ApplyOp(q, ops[0]), ops[1..])
  }

  ghost predicate NoAuthFailure(q: Queue, ops: seq<Op>)
    requires QueueOk(q)
    decreases |ops|
  {
    ops == [] || (!(ops[0].Flush? && AuthFails(q, ops[0].turns)) && NoAuthFailure(ApplyOp(q, ops[0]), ops[1..]))
  }

  lemma CountPostsJoin(a: seq<QueuedPost>, b: seq<QueuedPost>, p: Post)
    ensures Count(Posts(a + b), p) == Count(Posts(a), p) + Count(Posts(b), p)
  {
    assert Posts(a + b) == Posts(a) + Posts(b);
    CountJoin(Posts(a), Posts(b), p);
  }

  /** A flush up to its auth error or its end: what it takes from the pending items it delivers or drops, and
      what it keeps stays in order. */
  lemma {:induction false} FlushConserves(pending: seq<QueuedPost>, turns: nat -> Turn, k: nat, p: Post)
    requires ItemsOk(pending) && k <= |pending|
    ensures var r := FlushFrom(pending, turns, k);
            !r.authFailed ==>
              Count(Posts(pending[k..]), p) == Count(Posts(r.remaining), p) + Count(r.delivered, p) + Count(r.dropped, p)
    decreases |pending| - k
  {
    if k < |pending| {
      FlushConserves(pending, turns, k + 1, p);
      var rest := FlushFrom(pending, turns, k + 1);
      assert pending[k..] == [pending[k]] + pending[k + 1..];
      CountPostsJoin([pending[k]], pending[k + 1..], p);
      match Try(pending[k], turns(k))
      case AuthFailed =>
      case Waits => CountPostsJoin([pending[k]], rest.remaining, p);
      case Delivered => CountJoin([pending[k].post], rest.delivered, p);
      case Dropped => CountJoin([pending[k].post], rest.dropped, p);
      case Retries(again) => CountPostsJoin([again], rest.remaining, p);
    }
  }

  lemma {:induction false} FlushKeepsOrder(pending: seq<QueuedPost>, turns: nat -> Turn, k: nat) returns (at: seq<int>)
    requires ItemsOk(pending) && k <= |pending|
    ensures Picks(Posts(FlushFrom(pending, turns, k).remaining), Posts(pending), at)
    ensures forall i :: 0 <= i < |at| ==> k <= at[i]
    decreases |pending| - k
  {
    at := [];
    if k < |pending| && !Try(pending[k], turns(k)).AuthFailed? {
      at := FlushKeepsOrder(pending, turns, k + 1);
      var v := Try(pending[k], turns(k));
      if v.Waits? || v.Retries? {
        at := [k] + at;
      }
    }
  }

  lemma PicksCompose<T>(a: seq<T>, b: seq<T>, c: seq<T>, at: seq<int>, bt: seq<int>)
    requires Picks(a, b, at) && Picks(b, c, bt)
    ensures Picks(a, c, seq(|a|, i requires 0 <= i < |a| => bt[at[i]]))
  {
  }

  lemma FlushOpConserves(q: Queue, turns: nat -> Turn)
    requires QueueOk(q) && Conserved(q) && !AuthFails(q, turns)
    ensures Conserved(FlushOp(q, turns))
  {
    if !q.authBlocked && q.items != [] {
      var r := FlushFrom(q.items, turns, 0);
      forall p ensures Count(Posts(q.items), p)
                 == Count(Posts(r.remaining), p) + Count(r.delivered, p) + Count(r.dropped, p)
      {
        FlushConserves(q.items, turns, 0, p);
        assert q.items[0..] == q.items;
      }
      FlushCounts(q, r);
      var at := FlushKeepsOrder(q.items, turns, 0);
      var bt :| Picks(Posts(q.items), q.enqueued, bt);
      PicksCompose(Posts(r.remaining), Posts(q.items), q.enqueued, at, bt);
    }
  }

  lemma FlushCounts(q: Queue, r: Flushed)
    requires forall p :: Count(Posts(q.items), p)
               == Count(Posts(r.remaining), p) + Count(r.delivered, p) + Count(r.dropped, p)
    requires Conserved(q)
    ensures forall p :: Count(q.enqueued, p) == Count(q.delivered + r.delivered, p) + Count(q.dropped + r.dropped, p)
                          + Count(q.evicted, p) + Count(Posts(r.remaining), p)
  {
    forall p ensures Count(q.enqueued, p) == Count(q.delivered + r.delivered, p) + Count(q.dropped + r.dropped, p)
                          + Count(q.evicted, p) + Count(Posts(r.remaining), p)
    {
      CountJoin(q.delivered, r.delivered, p);
      CountJoin(q.dropped, r.dropped, p);
    }
  }

  lemma EnqueueOpConserves(q: Queue, post: Post, now: int)
    requires QueueOk(q) && Conserved(q)
    ensures Conserved(EnqueueOp(q, post, now))
  {
    if !q.authBlocked {
      var full := |q.items| >= MAX_QUEUE_LEN;
      var kept := if full then q.items[1..] else q.items;
      var item := QueuedPost(post, 0, now + RETRY_BACKOFF[0]);
      var after := EnqueueOp(q, post, now);
      forall p ensures Count(after.enqueued, p)
                 == Count(after.delivered, p) + Count(after.dropped, p) + Count(after.evicted, p) + Count(Posts(after.items), p)
      {
        CountPostsJoin(kept, [item], p);
        CountJoin(q.enqueued, [post], p);
        if full {
          assert q.items == [q.items[0]] + kept;
          CountPostsJoin([q.items[0]], kept, p);
          CountJoin(q.evicted, [q.items[0].post], p);
        } else {
          CountJoin(q.evicted, [], p);
        }
      }
      EnqueueKeepsOrder(Posts(q.items), q.enqueued, full, post);
      assert Posts(kept + [item]) == (if full then Posts(q.items)[1..] else Posts(q.items)) + [post];
    }
  }

  lemma EnqueueKeepsOrder(a: seq<Post>, b: seq<Post>, full: bool, post: Post)
    requires InOrderWithin(a, b) && (full ==> a != [])
    ensures InOrderWithin((if full then a[1..] else a) + [post], b + [post])
  {
    var bt :| Picks(a, b, bt);
    var at := if full then bt[1..] else bt;
    assert Picks((if full then a[1..] else a) + [post], b + [post], at + [|b|]);
  }

  /** On every run up to the first auth error of a flush, nothing is lost, duplicated or reordered. */
  lemma {:induction false} RunConserves(q: Queue, ops: seq<Op>)
    requires QueueOk(q) && Conserved(q) && NoAuthFailure(q, ops)
    ensures Conserved(RunOps(q, ops))
    decreases |ops|
  {
    if ops != [] {
      match ops[0] {
        case Enqueue(post, now) => EnqueueOpConserves(q, post, now);
        case Flush(turns) => FlushOpConserves(q, turns);
        case SetAuthBlocked(blocked) =>
      }
      RunConserves(ApplyOp(q, ops[0]), ops[1..]);
    }
  }

  /** Up to the first auth error every item is either not reached yet or fails and is to be tried again: none is
      answered without error and none is given up. */
  predicate NothingSettled(items: seq<QueuedPost>, turns: nat -> Turn, k: nat)
    requires ItemsOk(items)
  {
    forall j :: k <= j < |items| && (forall i :: k <= i <= j ==> !Try(items[i], turns(i)).AuthFailed?) ==>
      Try(items[j], turns(j)).Waits? || Try(items[j], turns(j)).Retries?
  }

  lemma {:induction false} SettledExact(items: seq<QueuedPost>, turns: nat -> Turn, k: nat)
    requires ItemsOk(items) && k <= |items|
    ensures var r := FlushFrom(items, turns, k);
            NothingSettled(items, turns, k) <==> r.delivered == [] && r.dropped == []
    decreases |items| - k
  {
    hide Try;
    if k < |items| {
      SettledExact(items, turns, k + 1);
      SettledStep(items, turns, k);
    }
  }

  lemma SettledStep(items: seq<QueuedPost>, turns: nat -> Turn, k: nat)
    requires ItemsOk(items) && k < |items|
    ensures var v := Try(items[k], turns(k));
            NothingSettled(items, turns, k) <==>
              v.AuthFailed? || ((v.Waits? || v.Retries?) && NothingSettled(items, turns, k + 1))
  {
    hide Try;
    var v := Try(items[k], turns(k));
    if NothingSettled(items, turns, k) && !v.AuthFailed? {
      forall j | k + 1 <= j < |items| && (forall i :: k + 1 <= i <= j ==> !Try(items[i], turns(i)).AuthFailed?)
        ensures Try(items[j], turns(j)).Waits? || Try(items[j], turns(j)).Retries?
      {
        forall i | k <= i <= j ensures !Try(items[i], turns(i)).AuthFailed? {
        }
      }
    }
  }

  /** The flush that gets the first auth error keeps the ledger balanced exactly when no item before that error was
      answered without error or given up: such items stay queued although they are done with. */
  lemma AuthErrorExact(q: Queue, turns: nat -> Turn)
    requires QueueOk(q) && Conserved(q) && AuthFails(q, turns)
    ensures Conserved(FlushOp(q, turns)) <==> NothingSettled(q.items, turns, 0)
  {
    var r, after := FlushFrom(q.items, turns, 0), FlushOp(q, turns);
    SettledExact(q.items, turns, 0);
    forall p ensures Count(after.delivered, p) == Count(q.delivered, p) + Count(r.delivered, p)
    ensures Count(after.dropped, p) == Count(q.dropped, p) + Count(r.dropped, p) {
      CountJoin(q.delivered, r.delivered, p);
      CountJoin(q.dropped, r.dropped, p);
    }
    if r.delivered != [] {
      assert Count(r.delivered, r.delivered[0]) > 0;
    } else if r.dropped != [] {
      assert Count(r.dropped, r.dropped[0]) > 0;
    }
  }

  /** Two due items, the first answered without error, the second with 401: the first is delivered and still queued. */
  lemma DeliveredYetQueued(a: Post, b: Post, now: int, turns: nat -> Turn)
    requires turns(0) == Turn(false, now, None, now) && turns(1) == Turn(false, now, Some(APIError(401)), now)
    ensures var q := Queue([QueuedPost(a, 0, now), QueuedPost(b, 0, now)], false, [a, b], [], [], [], []);
            var after := FlushOp(q, turns);
            && QueueOk(q) && Conserved(q) && !Conserved(after)
            && after.items == q.items && after.delivered == [a] && after.authBlocked
  {
    hide FlushFrom, Conserved;
    var items := [QueuedPost(a, 0, now), QueuedPost(b, 0, now)];
    var q := Queue(items, false, [a, b], [], [], [], []);
    TwoQueued(q, a, b);
    TwoAnswers(items, a, b, turns);
    SettledExact(items, turns, 0);
    assert [] + [a] == [a];
    AuthErrorExact(q, turns);
  }

  lemma TwoQueued(q: Queue, a: Post, b: Post)
    requires |q.items| == 2 && q.items[0].post == a && q.items[1].post == b && q.enqueued == [a, b]
    requires q.delivered == [] && q.dropped == [] && q.evicted == []
    ensures Conserved(q)
  {
    assert Posts(q.items) == [a, b];
    assert Picks(Posts(q.items), q.enqueued, [0, 1]);
  }

  lemma {:induction false} TwoAnswers(items: seq<QueuedPost>, a: Post, b: Post, turns: nat -> Turn)
    requires ItemsOk(items) && |items| == 2 && items[0].post == a && items[1].post == b
    requires Try(items[0], turns(0)).Delivered? && Try(items[1], turns(1)).AuthFailed?
    ensures FlushFrom(items, turns, 0) == Flushed([], [a, b], [a], [], true)
  {
    hide Try;
    assert FlushFrom(items, turns, 1) == Flushed([], [b], [], [], true);
    assert [a] + [b] == [a, b] && [a] + [] == [a];
  }

  /** n times a flush and then the latch lifted. */
  function Rounds(turns: nat -> Turn, n: nat): seq<Op> {
    if n == 0 then [] else [Flush(turns), SetAuthBlocked(false)] + Rounds(turns, n - 1)
  }

  /** A flush that ends in an auth error does not write attempts back, so after the latch is lifted the next one starts
      from the same items: with the same answers every round makes the same posts again, without bound. */
  lemma {:induction false} AuthErrorsForgetAttempts(q: Queue, turns: nat -> Turn, n: nat, p: Post)
    requires QueueOk(q) && AuthFails(q, turns)
    ensures var after := RunOps(q, Rounds(turns, n));
            && after.items == q.items && after.enqueued == q.enqueued
            && Count(after.posted, p) == Count(q.posted, p) + n * Count(FlushFrom(q.items, turns, 0).posted, p)
    decreases n
  {
    if n > 0 {
      hide FlushFrom;
      var ops := Rounds(turns, n);
      var r := FlushFrom(q.items, turns, 0);
      assert q.items != [] by { NonEmptyFails(q, turns); }
      var failed := ApplyOp(q, ops[0]);
      var lifted := ApplyOp(failed, ops[1]);
      assert ops[1..][1..] == Rounds(turns, n - 1);
      CountJoin(q.posted, r.posted, p);
      AuthErrorsForgetAttempts(lifted, turns, n - 1, p);
      assert (n - 1) * Count(r.posted, p) + Count(r.posted, p) == n * Count(r.posted, p);
    }
  }

  lemma NonEmptyFails(q: Queue, turns: nat -> Turn)
    requires QueueOk(q) && AuthFails(q, turns)
    ensures q.items != []
  {
  }

  /** The queue holds the latest posts, as many as fit. */
  ghost predicate HoldsNewest(q: Queue) {
    && |q.items| == (if |q.enqueued| < 50 then |q.enqueued| else 50)
    && Posts(q.items) == q.enqueued[|q.enqueued| - |q.items|..]
    && q.evicted == q.enqueued[..|q.enqueued| - |q.items|]
  }

  /** Without flushes the queue holds exactly the latest fifty posts and the others were evicted, oldest first. */
  lemma {:induction false} EnqueuesKeepNewest(q: Queue, ops: seq<Op>)
    requires QueueOk(q) && HoldsNewest(q) && forall i :: 0 <= i < |ops| ==> !ops[i].Flush?
    ensures HoldsNewest(RunOps(q, ops))
    decreases |ops|
  {
    if ops != [] {
      if ops[0].Enqueue? && !q.authBlocked {
        OneMoreNewest(q, ops[0].post, ops[0].now);
      }
      EnqueuesKeepNewest(ApplyOp(q, ops[0]), ops[1..]);
    }
  }

  /** Posts that are enqueued while the latch is open are enqueued in turn. */
  lemma {:induction false} EnqueuesEnter(q: Queue, posts: seq<Post>, now: int)
    requires QueueOk(q) && !q.authBlocked
    ensures RunOps(q, Enqueues(posts, now)).enqueued == q.enqueued + posts
    decreases |posts|
  {
    if posts == [] {
      assert q.enqueued + [] == q.enqueued;
    } else {
      var ops := Enqueues(posts, now);
      assert ops[0] == Enqueue(posts[0], now) && ops[1..] == Enqueues(posts[1..], now);
      EnqueuesEnter(ApplyOp(q, ops[0]), posts[1..], now);
      Regroup(q.enqueued, [posts[0]], posts[1..]);
      assert [posts[0]] + posts[1..] == posts;
    }
  }

  ghost function Enqueues(posts: seq<Post>, now: int): (ops: seq<Op>)
    ensures |ops| == |posts|
  {
    seq(|posts|, i requires 0 <= i < |posts| => Enqueue(posts[i], now))
  }

  lemma OneMoreNewest(q: Queue, post: Post, now: int)
    requires QueueOk(q) && HoldsNewest(q) && !q.authBlocked
    ensures HoldsNewest(EnqueueOp(q, post, now))
  {
    var full := |q.items| >= MAX_QUEUE_LEN;
    var kept := if full then q.items[1..] else q.items;
    var cut := |q.enqueued| - |q.items|;
    PostsOf(q.items, kept, QueuedPost(post, 0, now + RETRY_BACKOFF[0]));
    SlideCut(q.enqueued, cut, post);
    if full {
      SlideCut(q.enqueued, cut + 1, post);
    }
  }

  lemma PostsOf(items: seq<QueuedPost>, kept: seq<QueuedPost>, item: QueuedPost)
    requires kept == items || (items != [] && kept == items[1..])
    ensures Posts(kept + [item]) == Posts(kept) + [item.post]
    ensures kept != items ==> Posts(kept) == Posts(items)[1..] && Posts(items)[0] == items[0].post
    ensures kept == items ==> Posts(kept) == Posts(items)
  {
  }

  lemma SlideCut(b: seq<Post>, cut: nat, post: Post)
    requires cut <= |b|
    ensures (b + [post])[cut..] == b[cut..] + [post] && (b + [post])[..cut] == b[..cut]
    ensures cut < |b| ==> b[cut..][1..] == b[cut + 1..] && b[..cut] + [b[cut]] == b[..cut + 1] && b[cut..][0] == b[cut]
  {
  }

  /** With distinct posts, each one enqueued is in exactly one place. */
  lemma ExactlyOnePlace(q: Queue, i: nat)
    requires Conserved(q) && NoDuplicates(q.enqueued) && i < |q.enqueued|
    ensures var p := q.enqueued[i];
            Count(q.delivered, p) + Count(q.dropped, p) + Count(q.evicted, p) + Count(Posts(q.items), p) == 1
  {
    var p := q.enqueued[i];
    CountMeaning(q.enqueued, p);
  }

  // ----- Retries are bounded -----

  /** Attempts left: over all items, or over those that hold one post. */
  function AttemptsLeft(items: seq<QueuedPost>, p: Option<Post>): int {
    if items == [] then 0
    else (if p.None? || items[0].post == p.value then MAX_RETRIES - items[0].attempts else 0) + AttemptsLeft(items[1..], p)
  }

  lemma {:induction false} AttemptsLeftOfJoin(a: seq<QueuedPost>, b: seq<QueuedPost>, p: Option<Post>)
    ensures AttemptsLeft(a + b, p) == AttemptsLeft(a, p) + AttemptsLeft(b, p)
  {
    if a == [] {
      assert a + b == b;
    } else {
      AttemptsLeftOfJoin(a[1..], b, p);
      assert a + b == [a[0]] + (a[1..] + b);
    }
  }

  lemma {:induction false} AttemptsLeftBounds(items: seq<QueuedPost>, p: Option<Post>)
    requires ItemsOk(items)
    ensures 0 <= AttemptsLeft(items, p)
    ensures p.None? ==> |items| <= AttemptsLeft(items, p)
  {
    if items != [] {
      assert ItemOk(items[0]);
      AttemptsLeftBounds(items[1..], p);
    }
  }

  /** Every post of an item uses up one of its attempts. */
  lemma {:induction false} FlushUsesAttempts(pending: seq<QueuedPost>, turns: nat -> Turn, k: nat, p: Post)
    requires ItemsOk(pending) && k <= |pending|
    ensures var r := FlushFrom(pending, turns, k);
            !r.authFailed ==>
              Count(r.posted, p) + AttemptsLeft(r.remaining, Some(p)) <= AttemptsLeft(pending[k..], Some(p))
    decreases |pending| - k
  {
    if k < |pending| {
      FlushUsesAttempts(pending, turns, k + 1, p);
      var rest := FlushFrom(pending, turns, k + 1);
      var item := pending[k];
      assert ItemOk(item);
      assert pending[k..] == [item] + pending[k + 1..];
      AttemptsLeftOfJoin([item], pending[k + 1..], Some(p));
      match Try(item, turns(k))
      case AuthFailed =>
      case Waits => AttemptsLeftOfJoin([item], rest.remaining, Some(p));
      case Delivered =>
      case Dropped =>
      case Retries(again) => AttemptsLeftOfJoin([again], rest.remaining, Some(p));
    }
  }

  /** How often p was posted by flushes that ended in an auth error. */
  ghost function AuthPosts(q: Queue, ops: seq<Op>, p: Post): nat
    requires QueueOk(q)
    decreases |ops|
  {
    if ops == [] then 0 else AuthPostsOf(q, ops[0], p) + AuthPosts(ApplyOp(q, ops[0]), ops[1..], p)
  }

  function AuthPostsOf(q: Queue, op: Op, p: Post): nat
    requires ItemsOk(q.items)
  {
    if op.Flush? && AuthFails(q, op.turns) then Count(FlushFrom(q.items, op.turns, 0).posted, p) else 0
  }

  ghost predicate PostsBounded(q: Queue, p: Post, extra: int) {
    Count(q.posted, p) + AttemptsLeft(q.items, Some(p)) <= 5 * Count(q.enqueued, p) + extra
  }

  lemma OpKeepsBound(q: Queue, op: Op, p: Post, extra: int)
    requires QueueOk(q) && PostsBounded(q, p, extra)
    ensures PostsBounded(ApplyOp(q, op), p, extra + AuthPostsOf(q, op, p))
  {
    match op {
      case Enqueue(post, now) =>
        if !q.authBlocked {
          var full := |q.items| >= MAX_QUEUE_LEN;
          var kept := if full then q.items[1..] else q.items;
          assert ItemsOk(kept) && (full ==> ItemOk(q.items[0]));
          CountJoin(q.enqueued, [post], p);
          AttemptsLeftOfJoin(kept, [QueuedPost(post, 0, now + RETRY_BACKOFF[0])], Some(p));
        }
      case Flush(turns) =>
        FlushUsesAttempts(q.items, turns, 0, p);
        assert q.items[0..] == q.items;
        CountJoin(q.posted, FlushFrom(q.items, turns, 0).posted, p);
      case SetAuthBlocked(blocked) =>
    }
  }

  /** On every run, a post is reposted at most five times for each time it was enqueued, not counting the posts of
      flushes that ended in an auth error. */
  lemma {:induction false} RepostsCounted(q: Queue, ops: seq<Op>, p: Post, extra: int)
    requires QueueOk(q) && PostsBounded(q, p, extra)
    ensures PostsBounded(RunOps(q, ops), p, extra + AuthPosts(q, ops, p))
    ensures Count(RunOps(q, ops).posted, p)
         <= 5 * Count(RunOps(q, ops).enqueued, p) + extra + AuthPosts(q, ops, p)
    decreases |ops|
  {
    if ops == [] {
      AttemptsLeftBounds(q.items, Some(p));
    } else {
      OpKeepsBound(q, ops[0], p, extra);
      hide ApplyOp, PostsBounded, AuthPostsOf;
      RepostsCounted(ApplyOp(q, ops[0]), ops[1..], p, extra + AuthPostsOf(q, ops[0], p));
    }
  }

  lemma {:induction false} NoAuthPosts(q: Queue, ops: seq<Op>, p: Post)
    requires QueueOk(q) && NoAuthFailure(q, ops)
    ensures AuthPosts(q, ops, p) == 0
    decreases |ops|
  {
    hide ApplyOp, AuthFails;
    if ops != [] {
      NoAuthPosts(ApplyOp(q, ops[0]), ops[1..], p);
    }
  }

  /** On every run up to the first auth error of a flush, a post is reposted at most five times for each time it
      was enqueued. */
  lemma RepostedAtMostFiveTimes(q: Queue, ops: seq<Op>, p: Post)
    requires QueueOk(q) && PostsBounded(q, p, 0) && NoAuthFailure(q, ops)
    ensures PostsBounded(RunOps(q, ops), p, 0)
    ensures Count(RunOps(q, ops).posted, p) <= 5 * Count(RunOps(q, ops).enqueued, p)
  {
    RepostsCounted(q, ops, p, 0);
    NoAuthPosts(q, ops, p);
  }

  /** Every item is due, the context is live and no answer is an auth error. */
  predicate AllDue(items: seq<QueuedPost>, turns: nat -> Turn) {
    forall k :: 0 <= k < |items| ==>
      && !turns(k).cancelled && items[k].nextTry <= turns(k).now
      && (turns(k).error.None? || !IsAuthError(turns(k).error.value))
  }

  ghost predicate AttemptsAtLeast(items: seq<QueuedPost>, n: int) {
    forall i :: 0 <= i < |items| ==> n <= items[i].attempts
  }

  lemma {:induction false} DueFlush(pending: seq<QueuedPost>, turns: nat -> Turn, k: nat, n: int)
    requires ItemsOk(pending) && k <= |pending| && AllDue(pending, turns) && AttemptsAtLeast(pending, n)
    ensures var r := FlushFrom(pending, turns, k);
            && !r.authFailed && AttemptsAtLeast(r.remaining, n + 1)
            && AttemptsLeft(r.remaining, None) + |pending| - k <= AttemptsLeft(pending[k..], None)
    decreases |pending| - k
  {
    if k < |pending| {
      DueFlush(pending, turns, k + 1, n);
      var rest := FlushFrom(pending, turns, k + 1);
      assert ItemOk(pending[k]);
      assert pending[k..] == [pending[k]] + pending[k + 1..];
      AttemptsLeftOfJoin([pending[k]], pending[k + 1..], None);
      if Try(pending[k], turns(k)).Retries? {
        AttemptsLeftOfJoin([Try(pending[k], turns(k)).item], rest.remaining, None);
      }
    }
  }

  /** When everything is due, a flush of a non-empty queue uses up attempts. */
  lemma DueFlushProgress(q: Queue, turns: nat -> Turn)
    requires QueueOk(q) && !q.authBlocked && q.items != [] && AllDue(q.items, turns)
    ensures AttemptsLeft(FlushOp(q, turns).items, None) < AttemptsLeft(q.items, None)
    ensures !FlushOp(q, turns).authBlocked
  {
    DueFlush(q.items, turns, 0, 0);
    assert q.items[0..] == q.items;
  }

  /** n flushes in a row, each with everything due. */
  ghost predicate DueFlushes(q: Queue, ts: seq<nat -> Turn>)
    requires QueueOk(q)
    decreases |ts|
  {
    ts == [] || (AllDue(q.items, ts[0]) && DueFlushes(ApplyOp(q, Flush(ts[0])), ts[1..]))
  }

  ghost function Flushes(ts: seq<nat -> Turn>): (ops: seq<Op>)
    ensures |ops| == |ts|
  {
    seq(|ts|, i requires 0 <= i < |ts| => Flush(ts[i]))
  }

  lemma {:induction false} FlushesAge(q: Queue, ts: seq<nat -> Turn>, n: int)
    requires QueueOk(q) && !q.authBlocked && DueFlushes(q, ts) && AttemptsAtLeast(q.items, n)
    ensures AttemptsAtLeast(RunOps(q, Flushes(ts)).items, n + |ts|)
    decreases |ts|
  {
    if ts != [] {
      if q.items != [] {
        DueFlush(q.items, ts[0], 0, n);
      }
      FlushesAge(ApplyOp(q, Flush(ts[0])), ts[1..], n + 1);
      assert Flushes(ts)[1..] == Flushes(ts[1..]);
    }
  }

  lemma SomeItemOld(items: seq<QueuedPost>, n: int)
    requires AttemptsAtLeast(items, n)
    ensures items == [] || exists i :: 0 <= i < |items| && n <= items[i].attempts
  {
    if items != [] {
      assert n <= items[0].attempts;
    }
  }

  /** Five flushes with everything due empty the queue, whatever the server answers. */
  lemma FiveFlushesDrain(q: Queue, ts: seq<nat -> Turn>)
    requires QueueOk(q) && !q.authBlocked && |ts| == 5 && DueFlushes(q, ts)
    ensures RunOps(q, Flushes(ts)).items == []
  {
    FlushesAge(q, ts, 0);
    var last := RunOps(q, Flushes(ts));
    SomeItemOld(last.items, MAX_RETRIES);
  }

  // ----- Interleavings: Flush split at its critical sections -----

  /** A flush between its snapshot and its write-back. */
  datatype Flight = Flight(pending: seq<QueuedPost>, next: nat, remaining: seq<QueuedPost>)

  datatype System = System(queue: Queue, flights: map<nat, Flight>)

  datatype Step =
    | Append(post: Post, now: int)
    | Block(blocked: bool)
    | Begin(id: nat)
    | Reach(id: nat, turn: Turn)
    | WriteBack(id: nat)

  ghost predicate FlightOk(f: Flight) {
    && f.next <= |f.pending| <= MAX_QUEUE_LEN && |f.remaining| <= f.next
    && ItemsOk(f.pending) && ItemsOk(f.remaining)
  }

  ghost predicate SystemOk(s: System) {
    QueueOk(s.queue) && forall id :: id in s.flights ==> FlightOk(s.flights[id])
  }

  predicate Enabled(s: System, step: Step) {
    match step
    case Append(_, _) => true
    case Block(_) => true
    case Begin(id) => id !in s.flights
    case Reach(id, _) => id in s.flights && s.flights[id].next < |s.flights[id].pending|
    case WriteBack(id) => id in s.flights && s.flights[id].next == |s.flights[id].pending|
  }

  function Apply(s: System, step: Step): System
    requires Enabled(s, step)
    requires step.Reach? ==> s.flights[step.id].pending[s.flights[step.id].next].attempts >= 0
  {
    match step
    case Append(post, now) => s.(queue := EnqueueOp(s.queue, post, now))
    case Block(blocked) => s.(queue := s.queue.(authBlocked := blocked))
    case Begin(id) =>
      if s.queue.authBlocked || s.queue.items == [] then s
      else s.(flights := s.flights[id := Flight(s.queue.items, 0, [])])
    case Reach(id, turn) =>
      var f := s.flights[id];
      var item, q, v := f.pending[f.next], s.queue, Try(f.pending[f.next], turn);
      var q' := if Posted(v) then q.(posted := q.posted + [item.post]) else q;
      var f' := f.(next := f.next + 1);
      (match v
       case AuthFailed => System(q'.(authBlocked := true), s.flights - {id})
       case Waits => System(q', s.flights[id := f'.(remaining := f.remaining + [item])])
       case Delivered => System(q'.(delivered := q.delivered + [item.post]), s.flights[id := f'])
       case Dropped => System(q'.(dropped := q.dropped + [item.post]), s.flights[id := f'])
       case Retries(again) => System(q', s.flights[id := f'.(remaining := f.remaining + [again])]))
    case WriteBack(id) =>
      System(s.queue.(items := s.flights[id].remaining), s.flights - {id})
  }

  /** Whatever the interleaving of enqueues, auth changes and flushes, the queue stays within fifty items, each
      with fewer than five attempts. */
  lemma StepKeepsSystem(s: System, step: Step)
    requires SystemOk(s) && Enabled(s, step)
    ensures SystemOk(Apply(s, step))
  {
    if step.Reach? {
      assert FlightOk(s.flights[step.id]);
      var f := s.flights[step.id];
      assert ItemOk(f.pending[f.next]);
    }
  }

  /** The backoff index of a retried item is its attempt count, from 1 to 4, so it is never clamped. */
  lemma BackoffNeverClamped(s: System, id: nat, turn: Turn)
    requires SystemOk(s) && Enabled(s, Reach(id, turn))
    ensures var item := s.flights[id].pending[s.flights[id].next];
            Try(item, turn).Retries? ==>
              var again := Try(item, turn).item;
              && 1 <= again.attempts <= 4
              && again.nextTry == turn.after + Delay(again.attempts)
  {
    var f := s.flights[id];
    assert FlightOk(f) && ItemOk(f.pending[f.next]);
  }

  ghost predicate Runs(s: System, steps: seq<Step>)
    requires SystemOk(s)
    decreases |steps|
  {
    steps == [] || (Enabled(s, steps[0]) && Runs(Next(s, steps[0]), steps[1..]))
  }

  ghost function Next(s: System, step: Step): (t: System)
    requires SystemOk(s) && Enabled(s, step)
    ensures SystemOk(t)
  {
    StepKeepsSystem(s, step);
    Apply(s, step)
  }

  ghost function RunSteps(s: System, steps: seq<Step>): (t: System)
    requires SystemOk(s) && Runs(s, steps)
    ensures SystemOk(t)
    decreases |steps|
  {
    if steps == [] then s else RunSteps(Next(s, steps[0]), steps[1..])
  }

  /** The posts of `enqueued` are accounted for by the ledger, `evicted` and the pending items. */
  ghost predicate Accounted(q: Queue, enqueued: seq<Post>, evicted: seq<Post>, pending: seq<Post>) {
    forall p :: Count(enqueued, p) == Count(q.delivered, p) + Count(q.dropped, p) + Count(evicted, p) + Count(pending, p)
  }

  /** A flight accounts for what was enqueued, less what was evicted, when it began. */
  ghost predicate FlightAccounts(s: System, id: nat, enqueued: seq<Post>, evicted: seq<Post>) {
    && id in s.flights && s.flights[id].next <= |s.flights[id].pending|
    && enqueued <= s.queue.enqueued
    && Accounted(s.queue, enqueued, evicted,
                 Posts(s.flights[id].remaining + s.flights[id].pending[s.flights[id].next..]))
  }

  /** A step that may happen while flush id is under way and is the only flush: no auth error. */
  predicate Alongside(s: System, id: nat, step: Step)
    requires Enabled(s, step)
    requires step.Reach? ==> s.flights[step.id].pending[s.flights[step.id].next].attempts >= 0
  {
    || step.Append? || step.Block?
    || (step.Reach? && step.id == id && !Try(s.flights[id].pending[s.flights[id].next], step.turn).AuthFailed?)
  }

  ghost predicate AllAlongside(s: System, id: nat, steps: seq<Step>)
    requires SystemOk(s) && Runs(s, steps)
    decreases |steps|
  {
    steps == [] || (Alongside(s, id, steps[0]) && AllAlongside(Next(s, steps[0]), id, steps[1..]))
  }

  /** What a step settles that is not flush id's. */
  function SettledByOthers(s: System, id: nat, step: Step): seq<Post>
    requires Enabled(s, step)
    requires step.Reach? ==> s.flights[step.id].pending[s.flights[step.id].next].attempts >= 0
  {
    if !step.Reach? || step.id == id then []
    else
      var item := s.flights[step.id].pending[s.flights[step.id].next];
      var v := Try(item, step.turn);
      if v.Delivered? || v.Dropped? then [item.post] else []
  }

  /** What is delivered and dropped, and what flight id has still in hand. */
  function InHand(s: System, id: nat, p: Post): nat
    requires id in s.flights && s.flights[id].next <= |s.flights[id].pending|
  {
    Count(s.queue.delivered, p) + Count(s.queue.dropped, p)
      + Count(Posts(s.flights[id].remaining + s.flights[id].pending[s.flights[id].next..]), p)
  }

  /** A flight that goes on settles what it takes out of its hand; only the other flushes add to the sum. */
  lemma StepInHand(s: System, id: nat, step: Step, p: Post)
    requires SystemOk(s) && Enabled(s, step) && id in s.flights
    requires step != WriteBack(id) && id in Next(s, step).flights
    ensures FlightOk(s.flights[id]) && FlightOk(Next(s, step).flights[id])
    ensures InHand(Next(s, step), id, p) == InHand(s, id, p) + Count(SettledByOthers(s, id, step), p)
  {
    if step.Reach? {
      var t, item := Next(s, step), s.flights[step.id].pending[s.flights[step.id].next];
      assert FlightOk(s.flights[step.id]);
      CountJoin(s.queue.delivered, [item.post], p);
      CountJoin(s.queue.dropped, [item.post], p);
      if step.id == id {
        OwnReach(s, id, step.turn, p);
      }
    }
  }

  lemma OwnReach(s: System, id: nat, turn: Turn, p: Post)
    requires SystemOk(s) && Enabled(s, Reach(id, turn)) && FlightOk(s.flights[id])
    requires id in Next(s, Reach(id, turn)).flights
    ensures InHand(Next(s, Reach(id, turn)), id, p) == InHand(s, id, p)
  {
    hide SystemOk;
    var f := s.flights[id];
    var t, item, rest := Next(s, Reach(id, turn)), f.pending[f.next], f.pending[f.next + 1..];
    assert f.pending[f.next..] == [item] + rest;
    CountPostsJoin(f.remaining, f.pending[f.next..], p);
    CountPostsJoin([item], rest, p);
    CountPostsJoin(t.flights[id].remaining, rest, p);
    match Try(item, turn)
    case Waits => CountPostsJoin(f.remaining, [item], p);
    case Delivered => CountJoin(s.queue.delivered, [item.post], p);
    case Dropped => CountJoin(s.queue.dropped, [item.post], p);
    case Retries(again) => CountPostsJoin(f.remaining, [again], p);
    case AuthFailed =>
  }

  lemma InHandAccounts(s: System, t: System, id: nat, enqueued: seq<Post>, evicted: seq<Post>)
    requires FlightAccounts(s, id, enqueued, evicted) && id in t.flights && t.flights[id].next <= |t.flights[id].pending|
    requires forall p :: InHand(t, id, p) == InHand(s, id, p)
    requires enqueued <= t.queue.enqueued
    ensures FlightAccounts(t, id, enqueued, evicted)
  {
    var held := Posts(t.flights[id].remaining + t.flights[id].pending[t.flights[id].next..]);
    forall p ensures Count(enqueued, p) == Count(t.queue.delivered, p) + Count(t.queue.dropped, p) + Count(evicted, p)
                       + Count(held, p)
    {
      assert InHand(t, id, p) == InHand(s, id, p);
    }
  }

  lemma AlongsideAccounts(s: System, id: nat, step: Step, enqueued: seq<Post>, evicted: seq<Post>)
    requires SystemOk(s) && Enabled(s, step) && Alongside(s, id, step) && FlightAccounts(s, id, enqueued, evicted)
    ensures FlightAccounts(Apply(s, step), id, enqueued, evicted)
  {
    var t := Next(s, step);
    assert s.queue.enqueued <= t.queue.enqueued;
    forall p ensures InHand(t, id, p) == InHand(s, id, p) {
      StepInHand(s, id, step, p);
      assert SettledByOthers(s, id, step) == [];
    }
    InHandAccounts(s, t, id, enqueued, evicted);
  }

  lemma {:induction false} AllAlongsideAccounts(s: System, id: nat, steps: seq<Step>, enqueued: seq<Post>, evicted: seq<Post>)
    requires SystemOk(s) && Runs(s, steps) && AllAlongside(s, id, steps) && FlightAccounts(s, id, enqueued, evicted)
    ensures FlightAccounts(RunSteps(s, steps), id, enqueued, evicted)
    decreases |steps|
  {
    hide Apply, FlightAccounts, Alongside, Enabled;
    if steps != [] {
      AlongsideAccounts(s, id, steps[0], enqueued, evicted);
      AllAlongsideAccounts(Next(s, steps[0]), id, steps[1..], enqueued, evicted);
    }
  }

  /** The queue has gone on from q0 by enqueuing `entered` and evicting `left`; the oldest items leave first. */
  ghost predicate MovedOn(q0: Queue, q: Queue, entered: seq<Post>, left: seq<Post>) {
    && q.enqueued == q0.enqueued + entered && q.evicted == q0.evicted + left
    && Posts(q0.items) + entered == left + Posts(q.items) && |left| <= |entered|
  }

  lemma EnqueueMovesOn(q0: Queue, q: Queue, entered: seq<Post>, left: seq<Post>, post: Post, now: int)
    returns (entered': seq<Post>, left': seq<Post>)
    requires MovedOn(q0, q, entered, left)
    ensures MovedOn(q0, EnqueueOp(q, post, now), entered', left')
  {
    entered', left' := entered, left;
    if !q.authBlocked {
      var full := |q.items| >= MAX_QUEUE_LEN;
      var kept := if full then q.items[1..] else q.items;
      var out: seq<Post> := if full then [q.items[0].post] else [];
      PostsOf(q.items, kept, QueuedPost(post, 0, now + RETRY_BACKOFF[0]));
      assert Posts(q.items) == out + Posts(kept);
      entered', left' := entered + [post], left + out;
      OneMovesOn(Posts(q0.items), entered, left, out, Posts(kept), post);
      Regroup(q0.enqueued, entered, [post]);
      Regroup(q0.evicted, left, out);
    }
  }

  lemma OneMovesOn(items: seq<Post>, entered: seq<Post>, left: seq<Post>, out: seq<Post>, kept: seq<Post>, post: Post)
    requires items + entered == left + (out + kept)
    ensures items + (entered + [post]) == (left + out) + (kept + [post])
  {
    assert items + (entered + [post]) == (items + entered) + [post];
    assert (left + (out + kept)) + [post] == (left + out) + (kept + [post]);
  }

  lemma {:induction false} AllAlongsideMoveOn(s: System, id: nat, steps: seq<Step>, q0: Queue, entered: seq<Post>, left: seq<Post>)
    returns (entered': seq<Post>, left': seq<Post>)
    requires SystemOk(s) && Runs(s, steps) && AllAlongside(s, id, steps) && MovedOn(q0, s.queue, entered, left)
    ensures MovedOn(q0, RunSteps(s, steps).queue, entered', left')
    decreases |steps|
  {
    hide MovedOn, EnqueueOp;
    entered', left' := entered, left;
    if steps != [] {
      var t := Next(s, steps[0]);
      if steps[0].Append? {
        entered', left' := EnqueueMovesOn(q0, s.queue, entered, left, steps[0].post, steps[0].now);
      } else {
        SameMoved(q0, s.queue, t.queue, entered, left);
      }
      entered', left' := AllAlongsideMoveOn(t, id, steps[1..], q0, entered', left');
    }
  }

  lemma SameMoved(q0: Queue, q: Queue, q': Queue, entered: seq<Post>, left: seq<Post>)
    requires MovedOn(q0, q, entered, left)
    requires q'.items == q.items && q'.enqueued == q.enqueued && q'.evicted == q.evicted
    ensures MovedOn(q0, q', entered, left)
  {
  }

  /** A single flush with other steps between its snapshot and its write-back, `entered` and `left` being what was
      enqueued and evicted in between. Afterwards everything enqueued before the snapshot is accounted for. The
      whole ledger is balanced exactly when what was enqueued in between is, as a multiset, what was evicted in
      between; leaving those evictions aside, exactly when nothing was enqueued. With distinct posts the two
      conditions are one: what is enqueued in between is lost. */
  lemma WriteBackExact(s: System, id: nat, steps: seq<Step>) returns (entered: seq<Post>, left: seq<Post>)
    requires SystemOk(s) && s.flights == map[] && Conserved(s.queue)
    requires !s.queue.authBlocked && s.queue.items != []
    requires Runs(Next(s, Begin(id)), steps) && AllAlongside(Next(s, Begin(id)), id, steps)
    requires Enabled(RunSteps(Next(s, Begin(id)), steps), WriteBack(id))
    ensures var before := RunSteps(Next(s, Begin(id)), steps);
            var q := Next(before, WriteBack(id)).queue;
            && MovedOn(s.queue, before.queue, entered, left)
            && q.enqueued == s.queue.enqueued + entered && q.evicted == s.queue.evicted + left
            && Accounted(q, s.queue.enqueued, s.queue.evicted, Posts(q.items))
            && (Accounted(q, q.enqueued, s.queue.evicted, Posts(q.items)) <==> entered == [])
            && (Accounted(q, q.enqueued, q.evicted, Posts(q.items)) <==> SamePosts(entered, left))
            && (NoDuplicates(q.enqueued) ==>
                  (Accounted(q, q.enqueued, q.evicted, Posts(q.items)) <==> entered == []))
  {
    var start := Next(s, Begin(id));
    var f := start.flights[id];
    assert f.remaining + f.pending[f.next..] == s.queue.items;
    assert FlightAccounts(start, id, s.queue.enqueued, s.queue.evicted);
    AllAlongsideAccounts(start, id, steps, s.queue.enqueued, s.queue.evicted);
    NothingMoved(s.queue, start.queue);
    entered, left := AllAlongsideMoveOn(start, id, steps, s.queue, [], []);
    hide Conserved, FlightAccounts, AllAlongside, Runs, RunSteps;
    var before := RunSteps(start, steps);
    WriteBackAccounts(before, id, s.queue.enqueued, s.queue.evicted);
    var q := Next(before, WriteBack(id)).queue;
    LedgerExact(q, s.queue.enqueued, entered, s.queue.evicted, left);
    if NoDuplicates(q.enqueued) {
      DistinctLost(s.queue, before.queue, entered, left);
    }
  }

  lemma NothingMoved(q0: Queue, q: Queue)
    requires q == q0
    ensures MovedOn(q0, q, [], [])
  {
    assert q0.enqueued + [] == q0.enqueued && q0.evicted + [] == q0.evicted;
    assert Posts(q0.items) + [] == [] + Posts(q.items);
  }

  /** The same posts, each as often. */
  ghost predicate SamePosts(a: seq<Post>, b: seq<Post>) {
    forall p :: Count(a, p) == Count(b, p)
  }

  lemma LedgerExact(q: Queue, enqueued: seq<Post>, entered: seq<Post>, evicted: seq<Post>, left: seq<Post>)
    requires Accounted(q, enqueued, evicted, Posts(q.items))
    ensures Accounted(q, enqueued + entered, evicted + left, Posts(q.items)) <==>
              SamePosts(entered, left)
  {
    if Accounted(q, enqueued + entered, evicted + left, Posts(q.items)) {
      BalancedMoves(q, enqueued, entered, evicted, left);
    }
    if SamePosts(entered, left) {
      MovesBalance(q, enqueued, entered, evicted, left);
    }
  }

  lemma BalancedMoves(q: Queue, enqueued: seq<Post>, entered: seq<Post>, evicted: seq<Post>, left: seq<Post>)
    requires Accounted(q, enqueued, evicted, Posts(q.items))
    requires Accounted(q, enqueued + entered, evicted + left, Posts(q.items))
    ensures SamePosts(entered, left)
  {
    forall p ensures Count(entered, p) == Count(left, p) {
      CountJoin(enqueued, entered, p);
      CountJoin(evicted, left, p);
    }
  }

  lemma MovesBalance(q: Queue, enqueued: seq<Post>, entered: seq<Post>, evicted: seq<Post>, left: seq<Post>)
    requires Accounted(q, enqueued, evicted, Posts(q.items))
    requires SamePosts(entered, left)
    ensures Accounted(q, enqueued + entered, evicted + left, Posts(q.items))
  {
    forall p ensures Count(enqueued + entered, p)
               == Count(q.delivered, p) + Count(q.dropped, p) + Count(evicted + left, p) + Count(Posts(q.items), p)
    {
      CountJoin(enqueued, entered, p);
      CountJoin(evicted, left, p);
    }
  }

  /** The first post evicted was queued before, so with distinct posts it is none of those enqueued since. */
  lemma DistinctLost(q0: Queue, q: Queue, entered: seq<Post>, left: seq<Post>)
    requires MovedOn(q0, q, entered, left) && Conserved(q0) && q0.items != [] && NoDuplicates(q.enqueued)
    ensures SamePosts(entered, left) <==> entered == []
  {
    if entered == [] {
      assert left == [];
    } else if left == [] {
      assert Count(entered, entered[0]) > 0;
    } else {
      var first := left[0];
      assert (left + Posts(q.items))[0] == first && (Posts(q0.items) + entered)[0] == Posts(q0.items)[0];
      var at :| Picks(Posts(q0.items), q0.enqueued, at);
      assert first == q0.enqueued[at[0]];
      assert Count(left, first) > 0;
      CountMeaning(entered, first);
      forall i | 0 <= i < |entered| ensures entered[i] != first {
        assert q.enqueued[at[0]] == first && q.enqueued[|q0.enqueued| + i] == entered[i];
      }
    }
  }

  lemma WriteBackAccounts(s: System, id: nat, enqueued: seq<Post>, evicted: seq<Post>)
    requires SystemOk(s) && FlightAccounts(s, id, enqueued, evicted) && Enabled(s, WriteBack(id))
    ensures var q := Apply(s, WriteBack(id)).queue;
            && Accounted(q, enqueued, evicted, Posts(q.items))
            && (Accounted(q, q.enqueued, evicted, Posts(q.items)) <==> q.enqueued == enqueued)
  {
    var f := s.flights[id];
    assert f.remaining + f.pending[f.next..] == f.remaining;
    var q := Apply(s, WriteBack(id)).queue;
    if q.enqueued != enqueued {
      var late := q.enqueued[|enqueued|..];
      assert q.enqueued == enqueued + late;
      CountJoin(enqueued, late, late[0]);
      assert Count(late, late[0]) > 0;
    }
  }

  // ----- Flushes that overlap -----

  /** Flush id goes on all the time: no step writes it back, and none of its posts gets an auth error. */
  ghost predicate Underway(s: System, id: nat, steps: seq<Step>)
    requires SystemOk(s) && Runs(s, steps)
    decreases |steps|
  {
    id in s.flights &&
    (steps == [] || (steps[0] != WriteBack(id) && Underway(Next(s, steps[0]), id, steps[1..])))
  }

  ghost function AllSettledByOthers(s: System, id: nat, steps: seq<Step>): seq<Post>
    requires SystemOk(s) && Runs(s, steps)
    decreases |steps|
  {
    if steps == [] then []
    else
      StepKeepsSystem(s, steps[0]);
      SettledByOthers(s, id, steps[0]) + AllSettledByOthers(Next(s, steps[0]), id, steps[1..])
  }

  lemma {:induction false} UnderwayInHand(s: System, id: nat, steps: seq<Step>, p: Post)
    requires SystemOk(s) && Runs(s, steps) && Underway(s, id, steps)
    ensures var t := RunSteps(s, steps);
            && id in s.flights && FlightOk(s.flights[id]) && id in t.flights && FlightOk(t.flights[id])
            && InHand(t, id, p) == InHand(s, id, p) + Count(AllSettledByOthers(s, id, steps), p)
    decreases |steps|
  {
    assert FlightOk(s.flights[id]);
    if steps != [] {
      hide Apply, InHand, SettledByOthers;
      var t := Next(s, steps[0]);
      assert id in t.flights;
      StepInHand(s, id, steps[0], p);
      UnderwayInHand(t, id, steps[1..], p);
      CountJoin(SettledByOthers(s, id, steps[0]), AllSettledByOthers(t, id, steps[1..]), p);
    }
  }

  /** Posts are enqueued and evicted, never taken back. */
  lemma {:induction false} LedgerGrows(s: System, steps: seq<Step>)
    requires SystemOk(s) && Runs(s, steps)
    ensures s.queue.enqueued <= RunSteps(s, steps).queue.enqueued && s.queue.evicted <= RunSteps(s, steps).queue.evicted
    decreases |steps|
  {
    if steps != [] {
      LedgerGrows(Next(s, steps[0]), steps[1..]);
    }
  }

  /** A flush with any other steps in between, further flushes included: after its write-back the ledger is balanced
      exactly when what was enqueued in between is, as a multiset, what was evicted in between and what the other
      flushes delivered or dropped in between. */
  lemma OverlapExact(s: System, id: nat, steps: seq<Step>) returns (entered: seq<Post>, left: seq<Post>)
    requires SystemOk(s) && id !in s.flights && !s.queue.authBlocked && s.queue.items != []
    requires Accounted(s.queue, s.queue.enqueued, s.queue.evicted, Posts(s.queue.items))
    requires Runs(Next(s, Begin(id)), steps) && Underway(Next(s, Begin(id)), id, steps)
    requires Enabled(RunSteps(Next(s, Begin(id)), steps), WriteBack(id))
    ensures var start := Next(s, Begin(id));
            var q := Next(RunSteps(start, steps), WriteBack(id)).queue;
            && q.enqueued == s.queue.enqueued + entered && q.evicted == s.queue.evicted + left
            && (Accounted(q, q.enqueued, q.evicted, Posts(q.items)) <==>
                  SamePosts(entered, left + AllSettledByOthers(start, id, steps)))
  {
    var start := Next(s, Begin(id));
    var before, others := RunSteps(start, steps), AllSettledByOthers(start, id, steps);
    LedgerGrows(start, steps);
    hide Runs, RunSteps, Underway, AllSettledByOthers, InOrderWithin;
    entered, left := before.queue.enqueued[|s.queue.enqueued|..], before.queue.evicted[|s.queue.evicted|..];
    var q := Next(before, WriteBack(id)).queue;
    assert start.flights[id].remaining + start.flights[id].pending[0..] == s.queue.items;
    assert before.queue.enqueued == s.queue.enqueued + entered && before.queue.evicted == s.queue.evicted + left;
    forall p ensures Count(q.enqueued, p) - Count(q.delivered, p) - Count(q.dropped, p) - Count(q.evicted, p)
                       - Count(Posts(q.items), p) == Count(entered, p) - Count(left + others, p)
    {
      UnderwayInHand(start, id, steps, p);
      var f := before.flights[id];
      assert f.remaining + f.pending[f.next..] == f.remaining;
      CountJoin(s.queue.enqueued, entered, p);
      CountJoin(s.queue.evicted, left, p);
      CountJoin(left, others, p);
    }
  }

  /** Two overlapping flushes, nothing enqueued: the one due post is delivered twice. */
  lemma {:induction false} DeliveredTwice(post: Post, now: int)
    ensures var s := System(Queue([QueuedPost(post, 0, now)], false, [post], [], [], [], []), map[]);
            var ok := Turn(false, now, None, now);
            var steps := [Begin(0), Begin(1), Reach(0, ok), Reach(1, ok), WriteBack(0), WriteBack(1)];
            && SystemOk(s) && Conserved(s.queue) && Runs(s, steps)
            && RunSteps(s, steps).queue == Queue([], false, [post], [post, post], [post, post], [], [])
  {
    var item, ok := QueuedPost(post, 0, now), Turn(false, now, None, now);
    var s := System(Queue([item], false, [post], [], [], [], []), map[]);
    var steps := [Begin(0), Begin(1), Reach(0, ok), Reach(1, ok), WriteBack(0), WriteBack(1)];
    OneQueued(s.queue, post);
    OneItemOk(s.queue);
    hide Conserved, Runs, RunSteps, SystemOk, Apply, Enabled;
    var s1 := OneBegun(s, steps, 0);
    var s2 := OneBegun(s1, steps[1..], 1);
    assert steps[2..] == [Reach(0, ok), Reach(1, ok), WriteBack(0), WriteBack(1)];
    BothFinish(s2, steps[2..], item, ok);
  }

  lemma {:induction false} BothFinish(s: System, steps: seq<Step>, item: QueuedPost, turn: Turn)
    requires SystemOk(s) && steps == [Reach(0, turn), Reach(1, turn), WriteBack(0), WriteBack(1)]
    requires 0 in s.flights && 1 in s.flights && s.flights[0] == s.flights[1] == Flight([item], 0, [])
    requires item.attempts >= 0 && Try(item, turn).Delivered? && s.queue.posted == s.queue.delivered == []
    ensures Runs(s, steps)
    ensures RunSteps(s, steps).queue
         == s.queue.(items := [], posted := [item.post, item.post], delivered := [item.post, item.post])
  {
    hide Runs, RunSteps, SystemOk, Try, Apply, Enabled;
    var s1 := OneDelivered(s, steps, 0, item, turn);
    var s2 := OneDelivered(s1, steps[1..], 1, item, turn);
    var s3 := OneLanded(s2, steps[2..], 0, item);
    var s4 := OneLanded(s3, steps[3..], 1, item);
    assert [] + [item.post] == [item.post] && [item.post] + [item.post] == [item.post, item.post];
    NoSteps(s4, steps[4..]);
  }

  lemma {:induction false} NoSteps(s: System, steps: seq<Step>)
    requires SystemOk(s) && steps == []
    ensures Runs(s, steps) && RunSteps(s, steps) == s
  {
  }

  lemma {:induction false} OneQueued(q: Queue, post: Post)
    requires |q.items| == 1 && q.items[0].post == post && q.enqueued == [post]
    requires q.delivered == [] && q.dropped == [] && q.evicted == []
    ensures Conserved(q)
  {
    assert Posts(q.items) == [post];
    assert Picks(Posts(q.items), q.enqueued, [0]);
  }

  lemma {:induction false} OneItemOk(q: Queue)
    requires |q.items| == 1 && ItemOk(q.items[0])
    ensures SystemOk(System(q, map[]))
  {
  }

  lemma {:induction false} OneBegun(s: System, steps: seq<Step>, id: nat) returns (t: System)
    requires SystemOk(s) && steps != [] && steps[0] == Begin(id) && id !in s.flights
    requires !s.queue.authBlocked && s.queue.items != []
    ensures t == s.(flights := s.flights[id := Flight(s.queue.items, 0, [])])
    ensures SystemOk(t) && (Runs(s, steps) <==> Runs(t, steps[1..]))
    ensures Runs(s, steps) ==> RunSteps(s, steps) == RunSteps(t, steps[1..])
  {
    hide Runs, RunSteps, SystemOk;
    t := Next(s, steps[0]);
    FirstStep(s, steps, t);
  }

  lemma {:induction false} OneLanded(s: System, steps: seq<Step>, id: nat, item: QueuedPost) returns (t: System)
    requires SystemOk(s) && steps != [] && steps[0] == WriteBack(id) && id in s.flights && s.flights[id] == Flight([item], 1, [])
    ensures t == System(s.queue.(items := []), s.flights - {id})
    ensures SystemOk(t) && (Runs(s, steps) <==> Runs(t, steps[1..]))
    ensures Runs(s, steps) ==> RunSteps(s, steps) == RunSteps(t, steps[1..])
  {
    hide Runs, RunSteps, SystemOk;
    t := Next(s, steps[0]);
    FirstStep(s, steps, t);
  }

  /** A flush of one due item that is answered without error. */
  lemma {:induction false} OneDelivered(s: System, steps: seq<Step>, id: nat, item: QueuedPost, turn: Turn) returns (t: System)
    requires SystemOk(s) && steps != [] && steps[0] == Reach(id, turn)
    requires id in s.flights && s.flights[id] == Flight([item], 0, []) && item.attempts >= 0 && Try(item, turn).Delivered?
    ensures t == System(s.queue.(posted := s.queue.posted + [item.post], delivered := s.queue.delivered + [item.post]),
                        s.flights[id := Flight([item], 1, [])])
    ensures SystemOk(t) && (Runs(s, steps) <==> Runs(t, steps[1..]))
    ensures Runs(s, steps) ==> RunSteps(s, steps) == RunSteps(t, steps[1..])
  {
    hide Runs, RunSteps, Try, SystemOk;
    t := Next(s, steps[0]);
    FirstStep(s, steps, t);
  }

  lemma {:induction false} FirstStep(s: System, steps: seq<Step>, t: System)
    requires SystemOk(s) && steps != [] && Enabled(s, steps[0]) && Next(s, steps[0]) == t
    ensures SystemOk(t) && (Runs(s, steps) <==> Runs(t, steps[1..]))
    ensures Runs(s, steps) ==> RunSteps(s, steps) == RunSteps(t, steps[1..])
  {
    hide Apply, SystemOk;
  }

  /** The answers a whole flush gets, as steps. */
  function Reaches(id: nat, turns: nat -> Turn, k: nat, n: nat): seq<Step>
    requires k <= n
  {
    seq(n - k, i requires 0 <= i < n - k => Reach(id, turns(k + i)))
  }

  /** The queue after a flight whose rest comes to r is written back. */
  function Landed(q: Queue, f: Flight, r: Flushed): Queue {
    Queue(f.remaining + r.remaining, q.authBlocked, q.enqueued, q.posted + r.posted, q.delivered + r.delivered,
          q.dropped + r.dropped, q.evicted)
  }

  lemma ReachLands(s: System, id: nat, turn: Turn, rest: Flushed)
    requires SystemOk(s) && Enabled(s, Reach(id, turn)) && FlightOk(s.flights[id])
    requires !Try(s.flights[id].pending[s.flights[id].next], turn).AuthFailed?
    ensures var f, t := s.flights[id], Next(s, Reach(id, turn));
            && id in t.flights && t.flights[id].pending == f.pending && t.flights[id].next == f.next + 1
            && Landed(t.queue, t.flights[id], rest)
                 == Landed(s.queue, f, Lead(f.pending[f.next], Try(f.pending[f.next], turn), rest))
  {
    hide SystemOk;
    var f, q := s.flights[id], s.queue;
    AfterStep(Flushed(f.remaining, q.posted, q.delivered, q.dropped, false), rest, f.pending[f.next]);
    var v := Try(f.pending[f.next], turn);
    if v.Retries? {
      AfterStep(Flushed(f.remaining, q.posted, q.delivered, q.dropped, false), rest, v.item);
    }
  }

  /** With nothing in between, the split flush does what the atomic one does. */
  lemma {:induction false} SplitFlushRefines(s: System, id: nat, turns: nat -> Turn)
    requires SystemOk(s) && id in s.flights
    requires !FlushFrom(s.flights[id].pending, turns, s.flights[id].next).authFailed
    ensures var f := s.flights[id];
            var r, steps := FlushFrom(f.pending, turns, f.next), Reaches(id, turns, f.next, |f.pending|);
            EndsIn(s, steps, id, Landed(s.queue, f, r))
    decreases |s.flights[id].pending| - s.flights[id].next
  {
    hide Lead, Landed, Try, Apply, EndsIn;
    var f := s.flights[id];
    assert FlightOk(f);
    var steps := Reaches(id, turns, f.next, |f.pending|);
    if f.next == |f.pending| {
      EndsAtOnce(s, id, turns);
    } else {
      ReachLands(s, id, turns(f.next), FlushFrom(f.pending, turns, f.next + 1));
      LeadAuth(f.pending[f.next], Try(f.pending[f.next], turns(f.next)), FlushFrom(f.pending, turns, f.next + 1));
      assert steps[0] == Reach(id, turns(f.next)) && steps[1..] == Reaches(id, turns, f.next + 1, |f.pending|);
      SplitFlushRefines(Next(s, steps[0]), id, turns);
      EndsInStep(s, steps, id, Landed(s.queue, f, FlushFrom(f.pending, turns, f.next)));
    }
  }

  /** A flight that is through with its items ends with its write-back. */
  lemma EndsAtOnce(s: System, id: nat, turns: nat -> Turn)
    requires SystemOk(s) && id in s.flights && s.flights[id].next == |s.flights[id].pending|
    ensures var f := s.flights[id];
            EndsIn(s, Reaches(id, turns, f.next, |f.pending|), id, Landed(s.queue, f, Flushed([], [], [], [], false)))
  {
    hide Landed;
    var f := s.flights[id];
    assert Reaches(id, turns, f.next, |f.pending|) == [];
    LandedEmpty(s.queue, f);
  }

  /** The steps can be taken, and then the flight's write-back gives this queue. */
  ghost predicate EndsIn(s: System, steps: seq<Step>, id: nat, q: Queue)
    requires SystemOk(s)
  {
    && Runs(s, steps) && Enabled(RunSteps(s, steps), WriteBack(id))
    && Next(RunSteps(s, steps), WriteBack(id)).queue == q
  }

  lemma EndsInStep(s: System, steps: seq<Step>, id: nat, q: Queue)
    requires SystemOk(s) && steps != [] && Enabled(s, steps[0]) && EndsIn(Next(s, steps[0]), steps[1..], id, q)
    ensures EndsIn(s, steps, id, q)
  {
    hide Apply, Enabled, SystemOk;
  }

  /** Snapshot, posts and write-back with nothing in between are the atomic flush. */
  lemma SplitFlushIsFlush(s: System, id: nat, turns: nat -> Turn)
    requires SystemOk(s) && id !in s.flights && !s.queue.authBlocked && s.queue.items != []
    requires !AuthFails(s.queue, turns)
    ensures EndsIn(Next(s, Begin(id)), Reaches(id, turns, 0, |s.queue.items|), id, FlushOp(s.queue, turns))
  {
    hide EndsIn, FlushFrom;
    var t, r := Next(s, Begin(id)), FlushFrom(s.queue.items, turns, 0);
    assert t.flights[id] == Flight(s.queue.items, 0, []) && t.queue == s.queue;
    assert [] + r.remaining == r.remaining;
    SplitFlushRefines(t, id, turns);
  }

  // ----- Sequential runs are runs of the steps -----

  /** The queue after the rest of a flight, also when it ends in an auth error and nothing is written back. */
  function Finished(q: Queue, f: Flight, r: Flushed): Queue {
    Queue(if r.authFailed then q.items else f.remaining + r.remaining, q.authBlocked || r.authFailed, q.enqueued,
          q.posted + r.posted, q.delivered + r.delivered, q.dropped + r.dropped, q.evicted)
  }

  lemma {:induction false} FlightEnds(s: System, id: nat, turns: nat -> Turn) returns (steps: seq<Step>)
    requires SystemOk(s) && id in s.flights
    ensures var f := s.flights[id];
            && FlightOk(f) && Runs(s, steps)
            && RunSteps(s, steps) == System(Finished(s.queue, f, FlushFrom(f.pending, turns, f.next)), s.flights - {id})
    decreases |s.flights[id].pending| - s.flights[id].next
  {
    hide Finished, Apply;
    var f := s.flights[id];
    assert FlightOk(f);
    if f.next == |f.pending| {
      LastOfFlight(s, id);
      steps := [WriteBack(id)];
      FirstStep(s, steps, Next(s, WriteBack(id)));
      NoSteps(Next(s, WriteBack(id)), []);
    } else {
      var turn := turns(f.next);
      var t := Next(s, Reach(id, turn));
      if Try(f.pending[f.next], turn).AuthFailed? {
        AuthOfFlight(s, id, turn);
        steps := [Reach(id, turn)];
        FirstStep(s, steps, t);
        NoSteps(t, []);
      } else {
        var rest := FlushFrom(f.pending, turns, f.next + 1);
        ReachFinishes(s, id, turn, rest);
        steps := FlightEnds(t, id, turns);
        assert t.flights - {id} == s.flights - {id};
        FirstStep(s, [Reach(id, turn)] + steps, t);
        assert ([Reach(id, turn)] + steps)[1..] == steps;
        steps := [Reach(id, turn)] + steps;
      }
    }
  }

  lemma LastOfFlight(s: System, id: nat)
    requires SystemOk(s) && Enabled(s, WriteBack(id))
    ensures Apply(s, WriteBack(id))
         == System(Finished(s.queue, s.flights[id], Flushed([], [], [], [], false)), s.flights - {id})
  {
    LandedEmpty(s.queue, s.flights[id]);
  }

  lemma AuthOfFlight(s: System, id: nat, turn: Turn)
    requires SystemOk(s) && Enabled(s, Reach(id, turn)) && FlightOk(s.flights[id])
    requires Try(s.flights[id].pending[s.flights[id].next], turn).AuthFailed?
    ensures var f := s.flights[id];
            Apply(s, Reach(id, turn))
              == System(Finished(s.queue, f, Flushed([], [f.pending[f.next].post], [], [], true)), s.flights - {id})
  {
    AppendNothing([], s.queue);
  }

  lemma ReachFinishes(s: System, id: nat, turn: Turn, rest: Flushed)
    requires SystemOk(s) && Enabled(s, Reach(id, turn)) && FlightOk(s.flights[id])
    requires !Try(s.flights[id].pending[s.flights[id].next], turn).AuthFailed?
    ensures var f, t := s.flights[id], Next(s, Reach(id, turn));
            && id in t.flights && t.flights == s.flights[id := t.flights[id]]
            && t.flights[id].pending == f.pending && t.flights[id].next == f.next + 1
            && Finished(t.queue, t.flights[id], rest)
                 == Finished(s.queue, f, Lead(f.pending[f.next], Try(f.pending[f.next], turn), rest))
  {
    ReachLands(s, id, turn, rest);
    LeadAuth(s.flights[id].pending[s.flights[id].next], Try(s.flights[id].pending[s.flights[id].next], turn), rest);
  }

  /** Whatever flushes are under way, an operation on the queue is what its steps do when nothing comes between them. */
  lemma OperationIsSteps(s: System, op: Op, id: nat) returns (steps: seq<Step>)
    requires SystemOk(s) && id !in s.flights
    ensures match op
            case Enqueue(post, now) => steps == [Append(post, now)]
            case SetAuthBlocked(blocked) => steps == [Block(blocked)]
            case Flush(_) => steps != [] && steps[0] == Begin(id)
    ensures Runs(s, steps) && RunSteps(s, steps) == System(ApplyOp(s.queue, op), s.flights)
  {
    var first :=
      match op
      case Enqueue(post, now) => Append(post, now)
      case SetAuthBlocked(blocked) => Block(blocked)
      case Flush(_) => Begin(id);
    var t := Next(s, first);
    steps := [];
    NoSteps(t, []);
    if op.Flush? && !s.queue.authBlocked && s.queue.items != [] {
      assert t.flights[id] == Flight(s.queue.items, 0, []) && t.queue == s.queue;
      assert [] + FlushFrom(s.queue.items, op.turns, 0).remaining == FlushFrom(s.queue.items, op.turns, 0).remaining;
      hide FlushFrom;
      steps := FlightEnds(t, id, op.turns);
      assert t.flights - {id} == s.flights;
    }
    FirstStep(s, [first] + steps, t);
    assert ([first] + steps)[1..] == steps;
    steps := [first] + steps;
  }

  /** Every sequential run is one of the runs with steps. */
  lemma {:induction false} RunIsSteps(s: System, ops: seq<Op>, id: nat) returns (steps: seq<Step>)
    requires SystemOk(s) && id !in s.flights
    ensures Runs(s, steps) && RunSteps(s, steps) == System(RunOps(s.queue, ops), s.flights)
    decreases |ops|
  {
    hide Apply, ApplyOp, SystemOk, Enabled;
    steps := [];
    NoSteps(s, []);
    if ops != [] {
      var first := OperationIsSteps(s, ops[0], id);
      var rest := RunIsSteps(RunSteps(s, first), ops[1..], id);
      RunsJoin(s, first, rest);
      steps := first + rest;
    }
  }

  lemma {:induction false} RunsJoin(s: System, a: seq<Step>, b: seq<Step>)
    requires SystemOk(s) && Runs(s, a) && Runs(RunSteps(s, a), b)
    ensures Runs(s, a + b) && RunSteps(s, a + b) == RunSteps(RunSteps(s, a), b)
    decreases |a|
  {
    hide Apply, SystemOk, Enabled;
    if a == [] {
      assert a + b == b;
    } else {
      RunsJoin(Next(s, a[0]), a[1..], b);
      assert (a + b)[0] == a[0] && (a + b)[1..] == a[1..] + b;
    }
  }

  /** All these answers are steps of this flush. */
  lemma {:induction false} ReachesAlongside(s: System, id: nat, turns: nat -> Turn)
    requires SystemOk(s) && id in s.flights
    requires !FlushFrom(s.flights[id].pending, turns, s.flights[id].next).authFailed
    ensures var steps := Reaches(id, turns, s.flights[id].next, |s.flights[id].pending|);
            Runs(s, steps) && AllAlongside(s, id, steps)
    decreases |s.flights[id].pending| - s.flights[id].next
  {
    hide Lead, Landed, Try, Apply;
    var f := s.flights[id];
    assert FlightOk(f);
    var steps := Reaches(id, turns, f.next, |f.pending|);
    if f.next < |f.pending| {
      ReachLands(s, id, turns(f.next), FlushFrom(f.pending, turns, f.next + 1));
      LeadAuth(f.pending[f.next], Try(f.pending[f.next], turns(f.next)), FlushFrom(f.pending, turns, f.next + 1));
      assert steps[0] == Reach(id, turns(f.next)) && steps[1..] == Reaches(id, turns, f.next + 1, |f.pending|);
      ReachesAlongside(Next(s, steps[0]), id, turns);
    }
  }

  /** Without distinct posts a loss can stay hidden: when a post equal to the oldest of fifty is enqueued right after the
      snapshot, the ledger is balanced after the write-back, which leaves exactly the items that it would leave
      without that enqueue. */
  lemma LossHidden(s: System, id: nat, turns: nat -> Turn, now: int)
    requires SystemOk(s) && s.flights == map[] && Conserved(s.queue)
    requires |s.queue.items| == MAX_QUEUE_LEN && !s.queue.authBlocked && !AuthFails(s.queue, turns)
    ensures var post, start := s.queue.items[0].post, Next(s, Begin(id));
            var steps := [Append(post, now)] + Reaches(id, turns, 0, MAX_QUEUE_LEN);
            && Runs(start, steps) && Enabled(RunSteps(start, steps), WriteBack(id))
            && var q := Next(RunSteps(start, steps), WriteBack(id)).queue;
               && q.enqueued == s.queue.enqueued + [post]
               && q.items == FlushOp(s.queue, turns).items
               && Accounted(q, q.enqueued, q.evicted, Posts(q.items))
  {
    var post, start := s.queue.items[0].post, Next(s, Begin(id));
    var reaches := Reaches(id, turns, 0, MAX_QUEUE_LEN);
    var steps := [Append(post, now)] + reaches;
    var t, r := Next(start, Append(post, now)), FlushFrom(s.queue.items, turns, 0);
    assert t.flights[id] == Flight(s.queue.items, 0, []);
    assert steps[0] == Append(post, now) && steps[1..] == reaches;
    assert t.queue.enqueued == s.queue.enqueued + [post] && t.queue.evicted == s.queue.evicted + [post];
    assert [] + r.remaining == r.remaining;
    SplitFlushRefines(t, id, turns);
    ReachesAlongside(t, id, turns);
    hide Conserved, FlushFrom, Accounted, Reaches;
    EndsInStep(start, steps, id, Landed(t.queue, t.flights[id], r));
    FirstStep(start, steps, t);
    var entered, left := WriteBackExact(s, id, steps);
    assert entered == (s.queue.enqueued + entered)[|s.queue.enqueued|..] == [post];
    assert left == (s.queue.evicted + left)[|s.queue.evicted|..] == [post];
  }

  lemma LeadAuth(item: QueuedPost, v: Verdict, rest: Flushed)
    ensures !v.AuthFailed? ==> Lead(item, v, rest).authFailed == rest.authFailed
  {
  }

  lemma LandedEmpty(q: Queue, f: Flight)
    ensures Landed(q, f, Flushed([], [], [], [], false)) == q.(items := f.remaining)
  {
    AppendNothing(f.remaining, q);
  }

  lemma AppendNothing(items: seq<QueuedPost>, q: Queue)
    ensures items + [] == items && q.posted + [] == q.posted && q.delivered + [] == q.delivered
    ensures q.dropped + [] == q.dropped
  {
  }

  // ----- send -----

  class Client {
    const retry: RetryQueue

    constructor (retry: RetryQueue)
      ensures this.retry == retry
    {
      this.retry := retry;
    }

    /** Posts directly, given what the main server answers. Once an answer was an auth error nothing is posted
        until the block is lifted; a retryable failure is queued; any other failure is only returned. */
    method Send(path: string, body: string, answer: Option<PostError>, now: int)
      returns (err: Option<PostError>, posted: bool)
      requires retry.Valid()
      modifies retry
      ensures retry.Valid()
      ensures posted <==> !old(retry.authBlocked)
      ensures err == if posted then answer else Some(APIError(401))
      ensures retry.authBlocked <==> old(retry.authBlocked) || answer == Some(APIError(401))
      ensures retry.ledger ==
                if posted && answer == Some(APIError(401)) then old(retry.ledger).(authBlocked := true)
                else if posted && answer.Some? && Transient(answer.value)
                then EnqueueOp(old(retry.ledger), Post(path, body), now)
                else old(retry.ledger)
    {
      if retry.authBlocked {
        return Some(APIError(401)), false;
      }
      if answer.None? {
        return None, true;
      }
      if IsAuthError(answer.value) {
        retry.SetAuthBlocked(true);
        return answer, true;
      }
      if IsRetryable(answer.value) {
        retry.Enqueue(path, body, now);
      }
      return answer, true;
    }
  }
}
