/**
 * com.github.sgr.util.ImageCache: the older, fully synchronized image cache. A miss fetches
 * on the caller's thread with a fixed policy: five attempts, a one-second sleep after every
 * failed attempt (the last one included), no distinction of "not found", no scaling.
 */
module SgrCache {
  import opened Wrappers
  import opened Images
  import opened Lru

  const LIMIT_FETCH: int := 5
  const INTERVAL_REFETCH: int := 1

  /**
   * Toolkit.createImage on a fully read body: it always yields an image (undecodable bytes
   * give a broken image rather than null).
   */
  type Toolkit = seq<byte> -> Image

  /** fetchAux: the stream read to its end gives an image; any IOException gives null. */
  function FetchAux(tk: Toolkit, o: NetOutcome): (r: Option<Image>)
    ensures r.Some? <==> o.Complete?
    ensures r.Some? ==> r.value == tk(o.body)
  {
    if o.Complete? then Some(tk(o.body)) else None
  }

  function CompleteAt(net: nat -> NetOutcome): (nat -> bool) {
    (j: nat) => net(j).Complete?
  }

  /**
   * What fetch does, in closed form: attempts 0, 1, ... until one completes, each failed
   * attempt followed by a sleep of INTERVAL_REFETCH seconds; after LIMIT_FETCH failures the
   * result is null.
   */
  function FetchSpec(tk: Toolkit, net: nat -> NetOutcome): Run {
    var m := FirstWhere(CompleteAt(net), 0, LIMIT_FETCH - 1);
    if m >= LIMIT_FETCH then Run(None, Attempts(LIMIT_FETCH, INTERVAL_REFETCH) + [Sleep(INTERVAL_REFETCH)])
    else Run(Some(tk(net(m).body)), Attempts(m + 1, INTERVAL_REFETCH) + [Decode(net(m).body)])
  }

  /** fetch: the retry loop. */
  method Fetch(tk: Toolkit, net: nat -> NetOutcome) returns (img: Option<Image>, trace: seq<IoEvent>)
    ensures Run(img, trace) == FetchSpec(tk, net)
  {
    ghost var m := FirstWhere(CompleteAt(net), 0, LIMIT_FETCH - 1);
    trace := [];
    var i := 0;
    while i < LIMIT_FETCH
      invariant 0 <= i <= m
      invariant trace == Attempts(i, INTERVAL_REFETCH) + (if i > 0 then [Sleep(INTERVAL_REFETCH)] else [])
    {
      trace := trace + [Request(i)];
      var attempt := FetchAux(tk, net(i));
      if attempt.Some? {
        assert CompleteAt(net)(i);
        trace := trace + [Decode(net(i).body)];
        return attempt, trace;
      }
      trace := trace + [Sleep(INTERVAL_REFETCH)];
      i := i + 1;
    }
    img := None;
  }

  /** A fetch succeeds exactly when one of the LIMIT_FETCH attempts completes. */
  lemma FetchSucceedsIffSomeAttemptCompletes(tk: Toolkit, net: nat -> NetOutcome)
    ensures FetchSpec(tk, net).image.Some? <==> exists j :: 0 <= j < LIMIT_FETCH && net(j).Complete?
    ensures FetchSpec(tk, net).image.Some? ==>
              exists j :: 0 <= j < LIMIT_FETCH && net(j).Complete? && (forall i :: 0 <= i < j ==> !net(i).Complete?) &&
                          FetchSpec(tk, net).image == Some(tk(net(j).body))
  {
    var m := FirstWhere(CompleteAt(net), 0, LIMIT_FETCH - 1);
    if exists j :: 0 <= j < LIMIT_FETCH && net(j).Complete? {
      var j :| 0 <= j < LIMIT_FETCH && net(j).Complete?;
      assert CompleteAt(net)(j);
    }
    if m < LIMIT_FETCH {
      assert CompleteAt(net)(m);
      forall i | 0 <= i < m ensures !net(i).Complete? {
        assert !CompleteAt(net)(i);
      }
    }
  }

  /**
   * Attempt counts: a successful fetch made k + 1 attempts with k sleeps and one decoding;
   * a failed one made all LIMIT_FETCH attempts, slept after each of them and decoded nothing.
   */
  lemma FetchCounts(tk: Toolkit, net: nat -> NetOutcome)
    ensures var t := FetchSpec(tk, net).trace;
            && 1 <= Requests(t) <= LIMIT_FETCH
            && (FetchSpec(tk, net).image.Some? ==> Sleeps(t) == Requests(t) - 1 && Decodes(t) == 1)
            && (FetchSpec(tk, net).image.None? ==> Requests(t) == LIMIT_FETCH && Sleeps(t) == LIMIT_FETCH && Decodes(t) == 0)
  {
    var m := FirstWhere(CompleteAt(net), 0, LIMIT_FETCH - 1);
    if m >= LIMIT_FETCH {
      AttemptsThen(LIMIT_FETCH, INTERVAL_REFETCH, Sleep(INTERVAL_REFETCH));
    } else {
      AttemptsThen(m + 1, INTERVAL_REFETCH, Decode(net(m).body));
    }
  }

  /** What getImage reports: an image (possibly the fallback), or MalformedURLException. */
  datatype Answer = Returned(image: Option<Image>) | MalformedUrl

  class ImageCache {
    const fallback: Option<Image>
    const tk: Toolkit
    const cache: LruMap
    var io: seq<IoEvent>

    ghost predicate Valid()
      reads this, cache
    {
      cache.Valid()
    }

    constructor (capacity: int, fallbackImage: Option<Image>, tk: Toolkit)
      ensures Valid() && fresh(cache)
      ensures fallback == fallbackImage && this.tk == tk
      ensures cache.capacity == capacity && cache.Snap() == Snapshot([], map[], [])
      ensures io == []
    {
      fallback := fallbackImage;
      this.tk := tk;
      cache := new LruMap(capacity);
      io := [];
    }

    /**
     * getImage(url). `wellFormed` says whether `new URL(url)` succeeds and `net` how each
     * HTTP attempt ends. The URL is parsed only on a miss.
     */
    method GetImage(url: string, wellFormed: bool, net: nat -> NetOutcome) returns (r: Answer)
      requires Valid()
      modifies this, cache
      ensures Valid()
      ensures url in old(cache.entries) ==>
                && r == Returned(Some(old(cache.entries)[url]))
                && cache.Snap() == AfterGet(old(cache.Snap()), url) && io == old(io)
      ensures url !in old(cache.entries) && !wellFormed ==>
                r == MalformedUrl && cache.Snap() == old(cache.Snap()) && io == old(io)
      ensures url !in old(cache.entries) && wellFormed ==>
                var job := FetchSpec(tk, net);
                && r == Returned(if job.image.Some? then job.image else fallback)
                && io == old(io) + job.trace
                && cache.Snap() == if job.image.Some? then AfterPut(old(cache.Snap()), cache.capacity, url, job.image.value)
                                   else old(cache.Snap())
    {
      var hit := cache.Get(url);
      if hit.Some? {
        return Returned(hit);
      }
      if !wellFormed {
        return MalformedUrl;
      }
      var img, trace := Fetch(tk, net);
      io := io + trace;
      if img.Some? {
        cache.Put(url, img.value);
        return Returned(img);
      }
      return Returned(fallback);
    }
  }
}
