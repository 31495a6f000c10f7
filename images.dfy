/**
 * What both image caches share: bytes, images, how one network attempt can end,
 * and the I/O events a fetch performs.
 */
module Images {
  import opened Wrappers

  newtype byte = b: int | 0 <= b < 256

  /**
   * A java.awt.Image as far as the caches can tell: an image the toolkit produced from
   * bytes (identified by a handle, with the width and height it reports once loaded, -1 when
   * unknown), or Image.getScaledInstance of another image at a requested size. A scaled
   * image's width and height are the requested ones: its real size when both are positive
   * (a negative side would be derived from the source's aspect ratio, which is not modelled).
   */
  datatype Image =
    | Decoded(handle: nat, width: int, height: int)
    | Scaled(source: Image, width: int, height: int)

  /**
   * Toolkit.createImage followed by waiting for the image to load: None stands for every
   * exception the two calls can throw. Which bytes decode to what is not modelled.
   */
  type Decoder = seq<byte> -> Option<Image>

  /**
   * How one HTTP attempt ends:
   * - Complete(body): the connection was made and the stream was read to its end;
   * - Interrupted: reading the stream threw after the connection was made;
   * - ConnectFailed: opening or connecting threw (timeouts, transport errors, HTTP error
   *   responses other than "not found");
   * - NotFound: the connection threw FileNotFoundException (the resource does not exist).
   */
  datatype NetOutcome = Complete(body: seq<byte>) | Interrupted | ConnectFailed | NotFound

  /** Observable effects of fetching: an HTTP attempt, a sleep, one decoding of bytes. */
  datatype IoEvent = Request(attempt: nat) | Sleep(seconds: int) | Decode(data: seq<byte>)

  /** The number of HTTP attempts in a trace. */
  function Requests(t: seq<IoEvent>): (n: nat)
    ensures n <= |t|
  {
    if t == [] then 0 else Requests(t[..|t| - 1]) + (if t[|t| - 1].Request? then 1 else 0)
  }

  /** The number of decodings in a trace. */
  function Decodes(t: seq<IoEvent>): (n: nat)
    ensures n <= |t|
  {
    if t == [] then 0 else Decodes(t[..|t| - 1]) + (if t[|t| - 1].Decode? then 1 else 0)
  }

  /** The number of sleeps in a trace. */
  function Sleeps(t: seq<IoEvent>): (n: nat)
    ensures n <= |t|
  {
    if t == [] then 0 else Sleeps(t[..|t| - 1]) + (if t[|t| - 1].Sleep? then 1 else 0)
  }

  /** A single event counts once, in its own kind. */
  lemma CountsSingle(e: IoEvent)
    ensures Requests([e]) == (if e.Request? then 1 else 0)
    ensures Sleeps([e]) == (if e.Sleep? then 1 else 0)
    ensures Decodes([e]) == (if e.Decode? then 1 else 0)
  {
    assert [e][..0] == [];
  }

  /** Counting distributes over concatenation. */
  lemma {:induction false} CountsAppend(a: seq<IoEvent>, b: seq<IoEvent>)
    ensures Requests(a + b) == Requests(a) + Requests(b)
    ensures Decodes(a + b) == Decodes(a) + Decodes(b)
    ensures Sleeps(a + b) == Sleeps(a) + Sleeps(b)
    decreases |b|
  {
    if b == [] {
      assert a + b == a;
    } else {
      var b' := b[..|b| - 1];
      assert (a + b)[..|a + b| - 1] == a + b';
      CountsAppend(a, b');
    }
  }

  /** n attempts followed by one more event: the event adds one to its own kind. */
  lemma AttemptsThen(n: nat, interval: int, last: IoEvent)
    ensures Requests(Attempts(n, interval) + [last]) == n + (if last.Request? then 1 else 0)
    ensures Sleeps(Attempts(n, interval) + [last]) == (if n == 0 then 0 else n - 1) + (if last.Sleep? then 1 else 0)
    ensures Decodes(Attempts(n, interval) + [last]) == (if last.Decode? then 1 else 0)
  {
    AttemptsCounts(n, interval);
    CountsAppend(Attempts(n, interval), [last]);
    CountsSingle(last);
  }

  /** The result of a fetch together with the I/O it performed. */
  datatype Run = Run(image: Option<Image>, trace: seq<IoEvent>)

  /**
   * The first index from i up to `limit` at which p holds, or limit + 1 when there is
   * none: the attempt at which a retry loop stops.
   */
  function FirstWhere(p: nat -> bool, i: nat, limit: int): (m: nat)
    requires i <= limit + 1
    ensures i <= m <= limit + 1
    ensures forall j :: i <= j < m ==> !p(j)
    ensures m <= limit ==> p(m)
    decreases limit + 1 - i
  {
    if i > limit then i
    else if p(i) then i
    else FirstWhere(p, i + 1, limit)
  }

  /**
   * n attempts as the fetch loop performs them: attempt 0, then a sleep before each of
   * attempts 1 .. n-1; in closed form, requests at the even positions and sleeps between.
   */
  function Attempts(n: nat, interval: int): (t: seq<IoEvent>)
    ensures |t| == if n == 0 then 0 else 2 * n - 1
    ensures forall k :: 0 <= k < |t| ==> t[k] == if k % 2 == 0 then Request(k / 2) else Sleep(interval)
  {
    if n == 0 then []
    else Attempts(n - 1, interval) + (if n - 1 > 0 then [Sleep(interval)] else []) + [Request(n - 1)]
  }

  /** n attempts contain n requests, n - 1 sleeps and no decoding. */
  lemma {:induction false} AttemptsCounts(n: nat, interval: int)
    ensures Requests(Attempts(n, interval)) == n
    ensures Sleeps(Attempts(n, interval)) == if n == 0 then 0 else n - 1
    ensures Decodes(Attempts(n, interval)) == 0
  {
    if n > 0 {
      AttemptsCounts(n - 1, interval);
      var pre := Attempts(n - 1, interval) + (if n - 1 > 0 then [Sleep(interval)] else []);
      CountsAppend(Attempts(n - 1, interval), if n - 1 > 0 then [Sleep(interval)] else []);
      CountsAppend(pre, [Request(n - 1)]);
      assert [Request(n - 1)][..0] == [];
      if n - 1 > 0 {
        assert [Sleep(interval)][..0] == [];
      }
    }
  }

}
