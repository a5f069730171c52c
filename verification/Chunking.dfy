/** Consumers of a byte stream that do not notice how the stream was cut into chunks. */
module Chunking {
  import opened Octets

  function Concat(chunks: seq<bytes>): bytes {
    if chunks == [] then [] else chunks[0] + Concat(chunks[1..])
  }

  function FeedAll<C>(feed: (C, bytes) -> C, c: C, chunks: seq<bytes>): C {
    if chunks == [] then c else FeedAll(feed, feed(c, chunks[0]), chunks[1..])
  }

  /** Feeding twice is feeding the concatenation, up to `same`, which feeding respects. */
  ghost predicate Compositional<C(!new)>(feed: (C, bytes) -> C, same: (C, C) -> bool) {
    && (forall a :: same(a, a))
    && (forall a, b, c :: same(a, b) && same(b, c) ==> same(a, c))
    && (forall a, b, x :: same(a, b) ==> same(feed(a, x), feed(b, x)))
    && (forall c, x, y :: same(feed(feed(c, x), y), feed(c, x + y)))
  }

  lemma {:induction false} ChunksAgree<C(!new)>(feed: (C, bytes) -> C, same: (C, C) -> bool, c: C, chunks: seq<bytes>)
    requires Compositional(feed, same)
    requires chunks != []
    ensures same(FeedAll(feed, c, chunks), feed(c, Concat(chunks)))
    decreases |chunks|
  {
    var first := feed(c, chunks[0]);
    if |chunks| == 1 {
      assert Concat(chunks) == chunks[0];
      assert FeedAll(feed, c, chunks) == FeedAll(feed, first, []);
    } else {
      ChunksAgree(feed, same, first, chunks[1..]);
      assert same(feed(first, Concat(chunks[1..])), feed(c, chunks[0] + Concat(chunks[1..])));
    }
  }
}
