/** The rate-limited file-transfer writer (pkg/agent/apis/pod.go): a write is cut into bursts, each paid for with
    tokens before it goes out. */
module RateLimit {
  type Byte = bv8

  function Sum(xs: seq<nat>): nat {
    if xs == [] then 0 else Sum(xs[..|xs| - 1]) + xs[|xs| - 1]
  }

  /** The writer underneath. A call may fail at any point, and a short write is always an error. */
  class Sink {
    var written: seq<Byte>

    constructor ()
      ensures written == []
    {
      written := [];
    }

    method Write(p: seq<Byte>) returns (n: nat, ok: bool)
      modifies this
      ensures n <= |p| && (n < |p| ==> !ok)
      ensures written == old(written) + p[..n]
    {
      n :| 0 <= n <= |p|;
      var fails: bool :| n < |p| ==> fails;
      ok := !fails;
      written := written + p[..n];
    }
  }

  /** A token bucket. A request for more than the burst is refused, any other may be (a done context); `granted` counts
      the tokens of the requests that were not. */
  class Limiter {
    const burst: nat
    var requested: seq<nat>
    var granted: nat

    constructor (burst: nat)
      ensures this.burst == burst && requested == [] && granted == 0
    {
      this.burst := burst;
      requested, granted := [], 0;
    }

    method WaitN(n: nat) returns (ok: bool)
      modifies this
      ensures requested == old(requested) + [n]
      ensures granted == old(granted) + if ok then n else 0
      ensures n > burst ==> !ok
    {
      requested := requested + [n];
      var refused: bool :| n > burst ==> refused;
      ok := !refused;
      if ok {
        granted := granted + n;
      }
    }
  }

  class RateLimitWriter {
    const originWriter: Sink
    const limiter: Limiter

    /** RateLimitWriter: ten seconds' worth of tokens is the burst. */
    constructor (w: Sink, speed: nat)
      ensures originWriter == w && fresh(limiter)
      ensures limiter.burst == speed * 10 && limiter.requested == [] && limiter.granted == 0
    {
      originWriter := w;
      limiter := new Limiter(speed * 10);
    }

    /** Pay for one chunk and, when the tokens are granted, send it; a refused chunk is not sent, not even in part. */
    method Send(chunk: seq<Byte>) returns (n: nat, ok: bool)
      modifies originWriter, limiter
      ensures limiter.requested == old(limiter.requested) + [|chunk|]
      ensures n <= |chunk| && originWriter.written == old(originWriter.written) + chunk[..n]
      ensures limiter.granted == old(limiter.granted) || limiter.granted == old(limiter.granted) + |chunk|
      ensures ok || n > 0 ==> limiter.granted == old(limiter.granted) + |chunk|
      ensures ok ==> n == |chunk|
    {
      var granted := limiter.WaitN(|chunk|);
      if granted {
        n, ok := originWriter.Write(chunk);
      } else {
        n, ok := 0, false;
      }
    }

    /** The first `page` whole bursts of the input, in order, as far as they go. */
    method WritePages(p: seq<Byte>, page: nat, max: nat) returns (n: nat, ok: bool, ghost asked: seq<nat>)
      requires max == limiter.burst && page * max <= |p|
      modifies originWriter, limiter
      ensures n <= |p| && originWriter.written == old(originWriter.written) + p[..n]
      ensures limiter.requested == old(limiter.requested) + asked
      ensures Accounted(asked, n, ok, if ok then page * max else |p|, max)
      ensures n <= limiter.granted - old(limiter.granted) <= Sum(asked)
    {
      n, asked := 0, [];
      ghost var before, wrote := limiter.requested, originWriter.written;
      var idx := 0;
      while idx < page
        invariant idx <= page && n == idx * max <= page * max
        invariant limiter.requested == before + asked
        invariant originWriter.written == wrote + p[..n]
        invariant Accounted(asked, n, true, n, max)
        invariant limiter.granted == old(limiter.granted) + n
      {
        PageEnds(idx, page, max);
        var tmpn: nat;
        tmpn, ok := Send(p[idx * max..idx * max + max]);
        Extend(before, asked, wrote, p, n, max, tmpn, ok, max);
        asked := asked + [max];
        n := n + tmpn;
        if !ok {
          return;
        }
        idx := idx + 1;
      }
      ok := true;
    }

    /** The count returned is the number of bytes delivered, and they are that prefix of the input; every byte was paid
        for. With a burst of zero anything but an empty write would divide by zero. */
    method Write(p: seq<Byte>) returns (n: nat, ok: bool)
      requires limiter.burst > 0 || p == []
      modifies originWriter, limiter
      ensures n <= |p| && originWriter.written == old(originWriter.written) + p[..n]
      ensures old(limiter.requested) <= limiter.requested
      ensures Accounted(limiter.requested[|old(limiter.requested)|..], n, ok, |p|, limiter.burst)
      ensures n <= limiter.granted - old(limiter.granted) <= |p|
    {
      var max, pl := limiter.burst, |p|;
      ghost var before, wrote := limiter.requested, originWriter.written;
      if pl <= max {
        n, ok := Send(p);
        Extend(before, [], wrote, p, 0, pl, n, ok, max);
        assert before + [] + [pl] == before + [pl];
        return;
      }
      var page, last := Pages(pl, max);
      ghost var asked;
      n, ok, asked := WritePages(p, page, max);
      assert limiter.requested[|before|..] == asked;
      if ok && last != 0 {
        var tmpn: nat;
        tmpn, ok := Send(p[page * max..pl]);
        Extend(before, asked, wrote, p, n, last, tmpn, ok, max);
        n := n + tmpn;
      }
    }
  }

  /** What a write of `length` bytes tells its caller: success means that every byte went out; no request exceeds the
      burst; the tokens asked for cover the bytes delivered and, on success, are exactly as many. */
  ghost predicate Accounted(asked: seq<nat>, n: nat, ok: bool, length: nat, burst: nat) {
    && n <= Sum(asked) <= length
    && (ok ==> n == Sum(asked) == length)
    && forall i :: 0 <= i < |asked| ==> asked[i] <= burst
  }

  lemma Extend(before: seq<nat>, asked: seq<nat>, wrote: seq<Byte>, p: seq<Byte>, n: nat, length: nat, sent: nat,
               ok: bool, burst: nat)
    requires sent <= length <= burst && n + length <= |p| && (ok ==> sent == length)
    requires Accounted(asked, n, true, n, burst)
    ensures before + asked + [length] == before + (asked + [length])
    ensures (before + (asked + [length]))[|before|..] == asked + [length]
    ensures wrote + p[..n] + p[n..n + length][..sent] == wrote + p[..n + sent]
    ensures Sum(asked) == n && Sum(asked + [length]) == n + length
    ensures Accounted(asked + [length], n + sent, ok, n + length, burst)
    ensures Accounted(asked + [length], n + sent, ok && n + length == |p|, |p|, burst)
  {
  }

  /** How many whole bursts there are, how many bytes they hold together, and what remains. */
  method Pages(pl: nat, max: nat) returns (page: nat, last: nat)
    requires max > 0
    ensures page * max + last == pl && last < max
  {
    page, last := pl / max, pl % max;
  }

  lemma PageEnds(idx: nat, page: nat, max: nat)
    requires idx < page
    ensures idx * max + max == (idx + 1) * max <= page * max
  {
  }
}
