/**
 * nico.cache.ImageCache: thumbnails by URL, cached in a bounded LRU map, fetched with
 * retries, decoded and shrunk. Concurrency is modelled sequentially: a caller that misses
 * the cache either becomes the OWNER of the key (it registers the key as in flight, runs the
 * fetch job and waits for it) or, when the key is already in flight, a JOINER that waits on
 * the owner's result with a time limit; the outcome of that wait is an input here.
 */
module NicoCache {
  import opened Wrappers
  import opened Images
  import opened Lru
  import opened JavaInt

  const LIMIT_REFETCH: int := 5
  const INTERVAL_REFETCH: int := 2
  const FETCHING_TIMEOUT_SEC: int := 10

  /** The constructor's retry policy and maximum image size. */
  datatype Config = Config(limitRefetch: int, intervalRefetch: int, width: int, height: int)

  /** What fetchData makes of one attempt: bytes, null, or FileNotFoundException. */
  datatype DataResult = Data(bytes: seq<byte>) | NoData | Missing

  /**
   * fetchData: a complete non-empty body is returned; an empty body, a read failure (the
   * partial body is discarded) and a connection failure all give null; a missing resource
   * is rethrown as FileNotFoundException.
   */
  function FetchData(o: NetOutcome): (r: DataResult)
    ensures r.Missing? <==> o.NotFound?
    ensures r.Data? <==> o.Complete? && |o.body| > 0
    ensures r.Data? ==> r.bytes == o.body
  {
    match o
    case Complete(body) => if |body| > 0 then Data(body) else NoData
    case Interrupted => NoData
    case ConnectFailed => NoData
    case NotFound => Missing
  }

  /**
   * The scale decision of createImage, `(img != null) && (w > width) || (h > height)`: the
   * null test binds to the width comparison only, but the image is never null there, so
   * the decision is "wider or taller than the maximum".
   */
  predicate NeedsScaling(img: Image, cfg: Config) {
    img.width > cfg.width || img.height > cfg.height
  }

  /**
   * getScaledInstance builds its scale filter at once, and the filter throws
   * IllegalArgumentException for a zero width or height; createImage catches it.
   */
  predicate ScalingThrows(cfg: Config) {
    cfg.width == 0 || cfg.height == 0
  }

  /**
   * createImage: decode the bytes; an image wider or taller than the maximum is replaced by
   * getScaledInstance(width, height), which does NOT keep the aspect ratio; a failure to
   * decode or to scale gives null.
   */
  function CreateImage(cfg: Config, decode: Decoder, data: seq<byte>): (r: Option<Image>)
    ensures r.Some? <==> decode(data).Some? && !(NeedsScaling(decode(data).value, cfg) && ScalingThrows(cfg))
    ensures r.Some? && !NeedsScaling(decode(data).value, cfg) ==> r.value == decode(data).value
    ensures r.Some? && NeedsScaling(decode(data).value, cfg) ==> r.value == Scaled(decode(data).value, cfg.width, cfg.height)
    ensures r.Some? && cfg.width > 0 && cfg.height > 0 ==> r.value.width <= cfg.width && r.value.height <= cfg.height
  {
    match decode(data)
    case None => None
    case Some(img) =>
      if !NeedsScaling(img, cfg) then Some(img)
      else if ScalingThrows(cfg) then None
      else Some(Scaled(img, cfg.width, cfg.height))
  }

  /** Whether attempt j settles the fetch (bytes or "not found") rather than being retried. */
  predicate Decisive(net: nat -> NetOutcome, j: nat) {
    !FetchData(net(j)).NoData?
  }

  function DecisiveAt(net: nat -> NetOutcome): (nat -> bool) {
    (j: nat) => Decisive(net, j)
  }

  /**
   * What fetch does, in closed form: attempts 0, 1, ... up to the first decisive one, with a
   * sleep of intervalRefetch before every attempt but the first; at most limitRefetch + 1
   * attempts. Bytes end the loop with createImage's result (decoded once, whatever it
   * gives); "not found" ends it with null; if no attempt is decisive the result is null.
   */
  function FetchSpec(cfg: Config, decode: Decoder, net: nat -> NetOutcome): Run {
    if cfg.limitRefetch < 0 then Run(None, [])
    else
      var m := FirstWhere(DecisiveAt(net), 0, cfg.limitRefetch);
      if m > cfg.limitRefetch then Run(None, Attempts(m, cfg.intervalRefetch))
      else match FetchData(net(m))
        case Data(b) => Run(CreateImage(cfg, decode, b), Attempts(m + 1, cfg.intervalRefetch) + [Decode(b)])
        case _ => Run(None, Attempts(m + 1, cfg.intervalRefetch))
  }

  /** fetch: the retry loop. */
  method Fetch(cfg: Config, decode: Decoder, net: nat -> NetOutcome) returns (img: Option<Image>, trace: seq<IoEvent>)
    ensures Run(img, trace) == FetchSpec(cfg, decode, net)
  {
    trace := [];
    if cfg.limitRefetch < 0 {
      return None, trace;
    }
    ghost var m := FirstWhere(DecisiveAt(net), 0, cfg.limitRefetch);
    var i := 0;
    while i <= cfg.limitRefetch
      invariant 0 <= i <= m
      invariant trace == Attempts(i, cfg.intervalRefetch)
    {
      if i > 0 {
        trace := trace + [Sleep(cfg.intervalRefetch)];
      }
      trace := trace + [Request(i)];
      var data := FetchData(net(i));
      assert data.NoData? || DecisiveAt(net)(i);
      match data {
        case Missing =>
          assert i == m;
          return None, trace;
        case Data(b) =>
          assert i == m;
          trace := trace + [Decode(b)];
          return CreateImage(cfg, decode, b), trace;
        case NoData =>
      }
      i := i + 1;
    }
    img := None;
  }

  /** The trace of a fetch: its attempts, then one decoding if bytes arrived. */
  lemma FetchTrace(cfg: Config, decode: Decoder, net: nat -> NetOutcome) returns (n: nat, tail: seq<IoEvent>)
    ensures FetchSpec(cfg, decode, net).trace == Attempts(n, cfg.intervalRefetch) + tail
    ensures n <= Bound(cfg.limitRefetch + 1) && (cfg.limitRefetch >= 0 ==> n >= 1)
    ensures tail == [] || (|tail| == 1 && tail[0].Decode?)
  {
    if cfg.limitRefetch < 0 {
      n, tail := 0, [];
    } else {
      var m := FirstWhere(DecisiveAt(net), 0, cfg.limitRefetch);
      if m > cfg.limitRefetch {
        n, tail := m, [];
      } else if FetchData(net(m)).Data? {
        n, tail := m + 1, [Decode(FetchData(net(m)).bytes)];
      } else {
        n, tail := m + 1, [];
      }
    }
  }

  /** The counts of such a trace. */
  lemma ShapeCounts(n: nat, interval: int, tail: seq<IoEvent>)
    requires tail == [] || (|tail| == 1 && tail[0].Decode?)
    ensures Requests(Attempts(n, interval) + tail) == n
    ensures Sleeps(Attempts(n, interval) + tail) == if n == 0 then 0 else n - 1
    ensures Decodes(Attempts(n, interval) + tail) <= 1
  {
    AttemptsCounts(n, interval);
    CountsAppend(Attempts(n, interval), tail);
    if tail != [] {
      CountsSingle(tail[0]);
      assert tail == [tail[0]];
    }
  }

  /** A fetch makes at most limitRefetch + 1 attempts, sleeps once fewer, decodes at most once. */
  lemma FetchBounds(cfg: Config, decode: Decoder, net: nat -> NetOutcome)
    ensures Requests(FetchSpec(cfg, decode, net).trace) <= Bound(cfg.limitRefetch + 1)
    ensures Sleeps(FetchSpec(cfg, decode, net).trace) ==
            if Requests(FetchSpec(cfg, decode, net).trace) == 0 then 0 else Requests(FetchSpec(cfg, decode, net).trace) - 1
    ensures Decodes(FetchSpec(cfg, decode, net).trace) <= 1
  {
    var n, tail := FetchTrace(cfg, decode, net);
    ShapeCounts(n, cfg.intervalRefetch, tail);
  }

  /** Every fetch with a non-negative limit begins with attempt 0, without sleeping. */
  lemma FetchStartsAtOnce(cfg: Config, decode: Decoder, net: nat -> NetOutcome)
    requires cfg.limitRefetch >= 0
    ensures FetchSpec(cfg, decode, net).trace[0] == Request(0)
  {
    var n, tail := FetchTrace(cfg, decode, net);
  }

  /** "Not found" at the first attempt: no retry, no sleep, null. */
  lemma NotFoundStopsAtOnce(cfg: Config, decode: Decoder, net: nat -> NetOutcome)
    requires cfg.limitRefetch >= 0 && net(0) == NotFound
    ensures FetchSpec(cfg, decode, net) == Run(None, [Request(0)])
  {
  }

  /**
   * The fetch settles at the first decisive attempt: after k attempts that gave null,
   * "not found" gives null with no further attempt, and bytes give createImage's result,
   * decoded once and never retried even when decoding fails.
   */
  lemma FetchSettles(cfg: Config, decode: Decoder, net: nat -> NetOutcome, k: nat)
    requires k <= cfg.limitRefetch
    requires forall j :: 0 <= j < k ==> !Decisive(net, j)
    requires Decisive(net, k)
    ensures net(k) == NotFound ==>
              FetchSpec(cfg, decode, net) == Run(None, Attempts(k + 1, cfg.intervalRefetch))
    ensures net(k).Complete? ==>
              FetchSpec(cfg, decode, net) ==
              Run(CreateImage(cfg, decode, net(k).body), Attempts(k + 1, cfg.intervalRefetch) + [Decode(net(k).body)])
  {
    var m := FirstWhere(DecisiveAt(net), 0, cfg.limitRefetch);
    assert DecisiveAt(net)(k);
    assert m == k;
  }

  /** When every attempt gives null the fetch makes all limitRefetch + 1 of them and gives null. */
  lemma FetchExhausts(cfg: Config, decode: Decoder, net: nat -> NetOutcome)
    requires cfg.limitRefetch >= 0
    requires forall j :: 0 <= j <= cfg.limitRefetch ==> !Decisive(net, j)
    ensures FetchSpec(cfg, decode, net) == Run(None, Attempts(cfg.limitRefetch + 1, cfg.intervalRefetch))
  {
    var m := FirstWhere(DecisiveAt(net), 0, cfg.limitRefetch);
    assert m == cfg.limitRefetch + 1;
  }

  /**
   * The loop counter of fetch as Java keeps it: an `int` that `i++` wraps around, after k
   * increments from 0. The model's counter is a mathematical integer instead.
   */
  function CounterAfter(k: nat): (r: Int32)
    ensures k < TWO_31 ==> r == k
  {
    if k == 0 then 0 else ToInt(CounterAfter(k - 1) + 1)
  }

  /**
   * Below Integer.MAX_VALUE the Java guard `i <= limitRefetch` holds for exactly the first
   * limitRefetch + 1 counter values, so there the loop stops where FetchSpec stops.
   */
  lemma {:induction false} GuardExitsAfterLimit(limit: int, k: nat)
    requires 0 <= limit < TWO_31 - 1 && k <= limit + 1
    ensures CounterAfter(k) <= limit <==> k <= limit
  {
    assert CounterAfter(k) == k;
  }

  /**
   * At limitRefetch == Integer.MAX_VALUE the guard holds for every counter value: after
   * attempt Integer.MAX_VALUE the counter wraps to Integer.MIN_VALUE, so Java keeps
   * retrying until an attempt is decisive, and never stops without one.
   */
  lemma {:induction false} GuardNeverFailsAtMax(k: nat)
    ensures CounterAfter(k) <= TWO_31 - 1
    ensures CounterAfter(TWO_31) == -TWO_31
  {
    assert CounterAfter(TWO_31 - 1) == TWO_31 - 1;
  }

  /** How waiting on a Future ends: with its value, or with one of the exceptions. */
  datatype WaitFailure = Timeout | Cancelled | Thrown | Interrupted
  datatype WaitOutcome = Resolved(image: Option<Image>) | Failed(why: WaitFailure)

  /** What the fetch job (the Callable) does: a malformed URL gives null without any I/O. */
  function Job(cfg: Config, decode: Decoder, wellFormed: bool, net: nat -> NetOutcome): (r: Run)
    ensures !wellFormed ==> r == Run(None, [])
  {
    if wellFormed then FetchSpec(cfg, decode, net) else Run(None, [])
  }

  class ImageCache {
    const cfg: Config
    const fallback: Option<Image>
    const decode: Decoder
    const cache: LruMap
    var fetching: set<string>
    var io: seq<IoEvent>

    ghost predicate Valid()
      reads this, cache
    {
      cache.Valid()
    }

    constructor (capacity: int, limitRefetch: int, intervalRefetch: int, width: int, height: int,
                 fallbackImage: Option<Image>, decode: Decoder)
      ensures Valid() && fresh(cache)
      ensures cfg == Config(limitRefetch, intervalRefetch, width, height)
      ensures fallback == fallbackImage && this.decode == decode
      ensures cache.capacity == capacity && cache.Snap() == Snapshot([], map[], [])
      ensures fetching == {} && io == []
    {
      cfg := Config(limitRefetch, intervalRefetch, width, height);
      fallback := fallbackImage;
      this.decode := decode;
      cache := new LruMap(capacity);
      fetching := {};
      io := [];
    }

    /** The four-argument constructor: the default retry policy. */
    constructor WithDefaultRetry(capacity: int, width: int, height: int, fallbackImage: Option<Image>, decode: Decoder)
      ensures Valid() && fresh(cache)
      ensures cfg == Config(LIMIT_REFETCH, INTERVAL_REFETCH, width, height)
      ensures fallback == fallbackImage && this.decode == decode
      ensures cache.capacity == capacity && cache.Snap() == Snapshot([], map[], [])
      ensures fetching == {} && io == []
    {
      cfg := Config(LIMIT_REFETCH, INTERVAL_REFETCH, width, height);
      fallback := fallbackImage;
      this.decode := decode;
      cache := new LruMap(capacity);
      fetching := {};
      io := [];
    }

    /** The image a caller receives: the one obtained, else the fallback image. */
    function Deliver(img: Option<Image>): (r: Option<Image>)
      ensures img.Some? ==> r == img
      ensures img.None? ==> r == fallback
    {
      if img.Some? then img else fallback
    }

    /** The fetch job run by the owner: fetch(new URL(url)), all its I/O recorded. */
    method RunJob(wellFormed: bool, net: nat -> NetOutcome) returns (img: Option<Image>)
      modifies this`io
      ensures img == Job(cfg, decode, wellFormed, net).image
      ensures io == old(io) + Job(cfg, decode, wellFormed, net).trace
    {
      if !wellFormed {
        return None;
      }
      var trace;
      img, trace := Fetch(cfg, decode, net);
      io := io + trace;
    }

    /** Owner step 1: the submitted job's Future is put in the in-flight table. */
    method BeginOwner(url: string)
      modifies this`fetching
      ensures fetching == old(fetching) + {url}
    {
      fetching := fetching + {url};
    }

    /**
     * Owner step 2, the finally block: the key leaves the in-flight table; a non-null image
     * enters the cache; the caller gets the image or the fallback.
     */
    method FinishOwner(url: string, img: Option<Image>) returns (r: Option<Image>)
      requires Valid()
      modifies this`fetching, cache
      ensures Valid()
      ensures fetching == old(fetching) - {url}
      ensures cache.Snap() == if img.Some? then AfterPut(old(cache.Snap()), cache.capacity, url, img.value)
                            else old(cache.Snap())
      ensures r == Deliver(img)
    {
      fetching := fetching - {url};
      if img.Some? {
        cache.Put(url, img.value);
      }
      r := Deliver(img);
    }

    /** The joiner step: wait on the owner's Future; anything but an image gives the fallback. */
    method Join(wait: WaitOutcome) returns (r: Option<Image>)
      ensures wait.Resolved? && wait.image.Some? ==> r == wait.image
      ensures !(wait.Resolved? && wait.image.Some?) ==> r == fallback
    {
      var img: Option<Image> := None;
      if wait.Resolved? {
        img := wait.image;
      }
      r := Deliver(img);
    }

    /**
     * getImage(url). `wellFormed` says whether `new URL(url)` succeeds, `net` how each HTTP
     * attempt ends, and `wait` how the wait ends when the key is already in flight.
     */
    method GetImage(url: string, wellFormed: bool, net: nat -> NetOutcome, wait: WaitOutcome) returns (r: Option<Image>)
      requires Valid()
      modifies this, cache
      ensures Valid()
      ensures url in old(cache.entries) ==>
                && r == Some(old(cache.entries)[url])
                && cache.Snap() == AfterGet(old(cache.Snap()), url)
                && io == old(io) && fetching == old(fetching)
      ensures url !in old(cache.entries) && url in old(fetching) ==>
                && r == (if wait.Resolved? && wait.image.Some? then wait.image else fallback)
                && cache.Snap() == old(cache.Snap()) && io == old(io) && fetching == old(fetching)
      ensures url !in old(cache.entries) && url !in old(fetching) ==>
                var job := Job(cfg, decode, wellFormed, net);
                && r == Deliver(job.image)
                && io == old(io) + job.trace
                && fetching == old(fetching)
                && cache.Snap() == if job.image.Some? then AfterPut(old(cache.Snap()), cache.capacity, url, job.image.value)
                                 else old(cache.Snap())
    {
      var hit := cache.Get(url);
      if hit.Some? {
        return hit;
      }
      if url in fetching {
        r := Join(wait);
      } else {
        BeginOwner(url);
        var img := RunJob(wellFormed, net);
        r := FinishOwner(url, img);
      }
    }
  }
}
