/**
 * The behaviour of a double-ended queue created with a maximum length
 * (`deque(maxlen=k)`): appending to a full queue evicts the OLDEST element.
 * Both the ingest server's event store and the emailer's log tail rely on it.
 */
module BoundedDeque {

  /** The last min(|s|, maxlen) elements of `s`, in their original order:
      what a queue bounded by `maxlen` holds after receiving all of `s`. */
  function Window<T>(s: seq<T>, maxlen: nat): (w: seq<T>)
    ensures |w| == if |s| < maxlen then |s| else maxlen
    ensures w == s[|s| - |w|..]
  {
    if |s| <= maxlen then s else s[|s| - maxlen..]
  }

  /** One `append(x)` on a queue `d` bounded by `maxlen`: when the queue is full the
      leftmost (oldest) element is dropped; a queue bounded by 0 stays empty. */
  function Push<T>(d: seq<T>, x: T, maxlen: nat): (r: seq<T>)
    requires |d| <= maxlen
    ensures |r| <= maxlen
    ensures maxlen > 0 ==> |r| > 0 && r[|r| - 1] == x
    ensures maxlen > 0 ==> r[..|r| - 1] == (if |d| < maxlen then d else d[1..])
  {
    if |d| < maxlen then d + [x]
    else if maxlen == 0 then []
    else d[1..] + [x]
  }

  /** Appending the elements of `xs` one after the other. */
  function PushAll<T>(d: seq<T>, xs: seq<T>, maxlen: nat): (r: seq<T>)
    requires |d| <= maxlen
    ensures |r| <= maxlen
    decreases |xs|
  {
    if xs == [] then d else PushAll(Push(d, xs[0], maxlen), xs[1..], maxlen)
  }

  /** One append to the window of `s` is the window of `s + [x]`:
      eviction keeps exactly the most recent elements. */
  lemma PushWindow<T>(s: seq<T>, x: T, maxlen: nat)
    ensures Push(Window(s, maxlen), x, maxlen) == Window(s + [x], maxlen)
  {
    var s' := s + [x];
    if |s| < maxlen {
      assert Window(s', maxlen) == s';
    } else if maxlen > 0 {
      assert Window(s', maxlen) == s'[|s'| - maxlen..];
      assert s'[|s'| - maxlen..] == s[|s| - maxlen + 1..] + [x];
    }
  }

  /** Appending element `i` of `s` to the window of its first `i` elements gives the window
      of its first `i + 1`: the step of a loop that feeds `s` into a bounded queue. */
  lemma PushPrefix<T>(s: seq<T>, i: nat, maxlen: nat)
    requires i < |s|
    ensures Push(Window(s[..i], maxlen), s[i], maxlen) == Window(s[..i + 1], maxlen)
  {
    assert s[..i + 1] == s[..i] + [s[i]];
    PushWindow(s[..i], s[i], maxlen);
  }

  /** Appending e1..en to the window of `s` leaves the window of `s + [e1..en]`. */
  lemma {:induction false} PushAllWindow<T>(s: seq<T>, xs: seq<T>, maxlen: nat)
    ensures PushAll(Window(s, maxlen), xs, maxlen) == Window(s + xs, maxlen)
    decreases |xs|
  {
    if xs == [] {
      assert s + xs == s;
    } else {
      var s' := s + [xs[0]];
      calc {
        PushAll(Window(s, maxlen), xs, maxlen);
        PushAll(Push(Window(s, maxlen), xs[0], maxlen), xs[1..], maxlen);
        { PushWindow(s, xs[0], maxlen); }
        PushAll(Window(s', maxlen), xs[1..], maxlen);
        { PushAllWindow(s', xs[1..], maxlen); }
        Window(s' + xs[1..], maxlen);
        { assert s' + xs[1..] == s + xs; }
        Window(s + xs, maxlen);
      }
    }
  }

  /** Starting from an empty queue, appending e1..en leaves exactly the last
      min(n, maxlen) of them in insertion order. */
  lemma PushAllFromEmpty<T>(xs: seq<T>, maxlen: nat)
    ensures PushAll([], xs, maxlen) == Window(xs, maxlen)
  {
    PushAllWindow([], xs, maxlen);
    assert [] + xs == xs;
  }

  /** The newest element of a non-empty window is the newest element received. */
  lemma WindowLast<T>(s: seq<T>, maxlen: nat)
    requires s != [] && maxlen > 0
    ensures Window(s, maxlen) != [] && Window(s, maxlen)[|Window(s, maxlen)| - 1] == s[|s| - 1]
  {
  }
}
