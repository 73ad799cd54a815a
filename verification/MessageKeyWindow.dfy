/** What `TakeKey` does to one receiver chain of a session: which keys it keeps, which it returns,
    and when it refuses. The keys of a chain have positions counted without bound from the chain key
    `seed` it started from; the index a key carries is its position modulo 2^32. */
module MessageKeyWindow {
  import opened Wrappers
  import opened Bytes
  import opened KdfChain
  import opened RatchetKeys
  import opened SessionStates

  const TWO_TO_32 := 0x1_0000_0000

  function ChainKeyAt(hmac: Hmac, seed: Bytes, p: nat): ChainKey {
    ChainKey(ChainSeed(hmac, seed, p), p % TWO_TO_32)
  }

  /** HMAC of the chain key at the position over the byte 1. */
  function MessageKeyAt(hmac: Hmac, seed: Bytes, p: nat): MessageKey {
    MessageKey(p % TWO_TO_32, hmac(ChainSeed(hmac, seed, p), [0x01]))
  }

  ghost predicate Has(keys: seq<MessageKey>, n: int) {
    exists k :: 0 <= k < |keys| && keys[k].index == n
  }

  ghost predicate Descending(positions: seq<nat>) {
    forall i, j :: 0 <= i < j < |positions| ==> positions[i] > positions[j]
  }

  /** The invariant of a skipped-key cache whose chain stands at position `next` and from which the
      positions in `used` were handed out; `cached` are the positions of the cached keys. Newest first,
      bounded, derived from `seed`, nothing used in it, and every unused one of the last
      MAX_MESSAGE_KEYS positions in it; only handing out the last index of a round starts another. */
  ghost predicate Window(hmac: Hmac, seed: Bytes, keys: seq<MessageKey>, cached: seq<nat>, next: nat, used: set<int>) {
    && |keys| == |cached| <= 2_000
    && Descending(cached)
    && (forall i :: 0 <= i < |cached| ==> cached[i] < next && keys[i] == MessageKeyAt(hmac, seed, cached[i]))
    && (forall n :: n in used ==> 0 <= n < next && n !in cached)
    && (forall n: int :: 0 <= n < next && next - n <= 2_000 && n !in used ==> n in cached)
    && (next >= TWO_TO_32 ==> U32_MAX in used)
  }

  ghost predicate WindowAt(hmac: Hmac, seed: Bytes, chain: ReceiverChain, cached: seq<nat>, next: nat, used: set<int>) {
    && chain.chainKey == ChainKeyAt(hmac, seed, next)
    && Window(hmac, seed, chain.messageKeys, cached, next, used)
  }

  // ------------------------------------------------------- what happens to the positions

  function InsertPosition(cached: seq<nat>, p: nat): seq<nat> {
    var longer := [p] + cached;
    if |longer| > MAX_MESSAGE_KEYS then longer[..|longer| - 1] else longer
  }

  /** The positions cached after the chain walked from `next` to `p`. */
  function SkipPositions(cached: seq<nat>, next: nat, p: nat): seq<nat>
    decreases p - next
  {
    if next >= p then cached else SkipPositions(InsertPosition(cached, next), next + 1, p)
  }

  /** The position a counter stands for: the newest cached one of that index if the counter is behind
      the chain, else the next one ahead. */
  function PositionFor(chain: ReceiverChain, cached: seq<nat>, next: nat, n: u32): nat {
    if n >= chain.chainKey.index then next + n - chain.chainKey.index
    else match KeyPosition(chain.messageKeys, n)
      case None => next
      case Some(k) => if k < |cached| then cached[k] else next
  }

  function CachedAfter(chain: ReceiverChain, cached: seq<nat>, next: nat, n: u32): seq<nat> {
    if n >= chain.chainKey.index then SkipPositions(cached, next, next + n - chain.chainKey.index)
    else match KeyPosition(chain.messageKeys, n)
      case None => cached
      case Some(k) => if k < |cached| then Without(cached, k) else cached
  }

  function Later(next: nat, p: nat): nat {
    if p < next then next else p + 1
  }

  // ------------------------------------------------------- walking forward

  lemma {:induction false} DescendingSpread(positions: seq<nat>, i: nat, j: nat)
    requires Descending(positions) && i <= j < |positions|
    ensures positions[i] - positions[j] >= j - i
    decreases j
  {
    if i < j {
      DescendingSpread(positions, i, j - 1);
    }
  }

  lemma InsertAdds(cached: seq<nat>, p: nat, n: int)
    requires n in InsertPosition(cached, p) && n != p
    ensures n in cached
  {
    var k :| 0 <= k < |InsertPosition(cached, p)| && InsertPosition(cached, p)[k] == n;
    assert cached[k - 1] == n;
  }

  /** A position less than MAX_MESSAGE_KEYS behind is not the one dropped. */
  lemma InsertHolds(cached: seq<nat>, p: nat, n: int)
    requires Descending([p] + cached) && |cached| <= MAX_MESSAGE_KEYS
    requires (n == p || n in cached) && p - n < MAX_MESSAGE_KEYS
    ensures n in InsertPosition(cached, p)
  {
    hide Descending;
    var longer := [p] + cached;
    assert n in longer;
    var k :| 0 <= k < |longer| && longer[k] == n;
    DescendingSpread(longer, 0, k);
    assert InsertPosition(cached, p)[k] == n;
  }

  lemma InsertShape(keys: seq<MessageKey>, key: MessageKey, cached: seq<nat>, p: nat)
    requires |keys| == |cached| <= MAX_MESSAGE_KEYS
    ensures var (k, c) := (InsertKey(keys, key), InsertPosition(cached, p));
      |k| == |c| <= MAX_MESSAGE_KEYS && |c| <= |cached| + 1
      && (forall i :: 0 < i < |c| ==> k[i] == keys[i - 1] && c[i] == cached[i - 1])
      && (0 < |c| ==> k[0] == key && c[0] == p)
  {
  }

  lemma InsertDescends(cached: seq<nat>, p: nat)
    requires Descending(cached) && forall i :: 0 <= i < |cached| ==> cached[i] < p
    ensures Descending([p] + cached) && Descending(InsertPosition(cached, p))
  {
  }

  /** Caching the chain's current key and stepping past it loses only what left the window. */
  lemma InsertKeepsWindow(hmac: Hmac, seed: Bytes, keys: seq<MessageKey>, cached: seq<nat>, next: nat, used: set<int>)
    requires Window(hmac, seed, keys, cached, next, used) && next % TWO_TO_32 < U32_MAX
    ensures Window(hmac, seed, InsertKey(keys, MessageKeyAt(hmac, seed, next)), InsertPosition(cached, next), next + 1,
                   used)
  {
    hide MessageKeyAt, InsertKey, InsertPosition, Descending;
    InsertShape(keys, MessageKeyAt(hmac, seed, next), cached, next);
    InsertDescends(cached, next);
    forall n: int | n in InsertPosition(cached, next) && n != next
      ensures n in cached
    {
      InsertAdds(cached, next, n);
    }
    forall n: int | (n == next || n in cached) && next - n < MAX_MESSAGE_KEYS
      ensures n in InsertPosition(cached, next)
    {
      InsertHolds(cached, next, n);
    }
  }

  lemma NextAt(hmac: Hmac, seed: Bytes, p: nat)
    ensures ChainKeyAt(hmac, seed, p).Next(hmac) == ChainKeyAt(hmac, seed, p + 1)
    ensures ChainKeyAt(hmac, seed, p).index == p % TWO_TO_32
    ensures p % TWO_TO_32 < U32_MAX ==> (p + 1) % TWO_TO_32 == p % TWO_TO_32 + 1
    ensures ChainKeyAt(hmac, seed, p).MessageKeyOf(hmac) == MessageKeyAt(hmac, seed, p)
  {
  }

  lemma {:induction false} SkipKeepsWindow(hmac: Hmac, seed: Bytes, keys: seq<MessageKey>, cached: seq<nat>, next: nat,
                                           p: nat, used: set<int>)
    requires Window(hmac, seed, keys, cached, next, used) && next <= p && next % TWO_TO_32 + p - next <= U32_MAX
    ensures var r := SkipTo(hmac, keys, ChainKeyAt(hmac, seed, next), next % TWO_TO_32 + p - next);
      r.1 == ChainKeyAt(hmac, seed, p) && Window(hmac, seed, r.0, SkipPositions(cached, next, p), p, used)
    decreases p - next
  {
    hide InsertKey, InsertPosition, ChainKeyAt, Window;
    NextAt(hmac, seed, next);
    if next < p {
      InsertKeepsWindow(hmac, seed, keys, cached, next, used);
      SkipKeepsWindow(hmac, seed, InsertKey(keys, MessageKeyAt(hmac, seed, next)), InsertPosition(cached, next),
                      next + 1, p, used);
    }
  }

  // ------------------------------------------------------- taking a key

  lemma RemovalHolds(cached: seq<nat>, k: nat, n: int)
    requires k < |cached| && Descending(cached)
    ensures n in Without(cached, k) <==> n in cached && n != cached[k]
  {
    var rest := Without(cached, k);
    if n in cached && n != cached[k] {
      var i :| 0 <= i < |cached| && cached[i] == n;
      assert rest[if i < k then i else i - 1] == n;
    }
    if n in rest {
      var i :| 0 <= i < |rest| && rest[i] == n;
      assert cached[if i < k then i else i + 1] == n;
    }
  }

  lemma RemovalKeepsWindow(hmac: Hmac, seed: Bytes, keys: seq<MessageKey>, cached: seq<nat>, next: nat, k: nat,
                           used: set<int>)
    requires Window(hmac, seed, keys, cached, next, used) && k < |cached|
    ensures cached[k] !in used
    ensures Window(hmac, seed, Without(keys, k), Without(cached, k), next, used + {cached[k] as int})
  {
    hide MessageKeyAt;
    forall n: int
      ensures n in Without(cached, k) <==> n in cached && n != cached[k]
    {
      RemovalHolds(cached, k, n);
    }
  }

  lemma UseKeepsWindow(hmac: Hmac, seed: Bytes, keys: seq<MessageKey>, cached: seq<nat>, p: nat, used: set<int>)
    requires Window(hmac, seed, keys, cached, p, used)
    ensures p !in used && Window(hmac, seed, keys, cached, p + 1, used + {p as int})
  {
    hide MessageKeyAt;
  }

  /** A key handed out is the one of a position of the chain that carries the counter as its index and was
      not handed out before. It leaves the window with that position used, whether or not the
      32-bit index wraps. */
  lemma TakeKeyKeepsPositions(hmac: Hmac, seed: Bytes, chain: ReceiverChain, n: u32, withSelf: bool,
                              cached: seq<nat>, next: nat, used: set<int>)
    requires WindowAt(hmac, seed, chain, cached, next, used) && TakeKey(hmac, chain, n, withSelf).Ok?
    ensures var p := PositionFor(chain, cached, next, n);
      p % TWO_TO_32 == n && p !in used
      && TakeKey(hmac, chain, n, withSelf).value.1 == MessageKeyAt(hmac, seed, p)
      && WindowAt(hmac, seed, TakeKey(hmac, chain, n, withSelf).value.0, CachedAfter(chain, cached, next, n),
                  Later(next, p), used + {p as int})
    ensures TakeKey(hmac, chain, n, withSelf).value.0.ratchetKey == chain.ratchetKey
  {
    hide MessageKeyAt, Window;
    NextAt(hmac, seed, next);
    if chain.chainKey.index > n {
      var k := KeyPosition(chain.messageKeys, n).value;
      CachedIs(hmac, seed, chain.messageKeys, cached, next, used, k);
      RemovalKeepsWindow(hmac, seed, chain.messageKeys, cached, next, k, used);
    } else {
      var p := next + n - chain.chainKey.index;
      SkipKeepsWindow(hmac, seed, chain.messageKeys, cached, next, p, used);
      NextAt(hmac, seed, p);
      var keys := SkipTo(hmac, chain.messageKeys, chain.chainKey, n).0;
      UseKeepsWindow(hmac, seed, keys, SkipPositions(cached, next, p), p, used);
    }
  }

  lemma CachedIs(hmac: Hmac, seed: Bytes, keys: seq<MessageKey>, cached: seq<nat>, next: nat, used: set<int>, k: nat)
    requires Window(hmac, seed, keys, cached, next, used) && k < |keys|
    ensures k < |cached| && cached[k] < next && keys[k] == MessageKeyAt(hmac, seed, cached[k])
            && keys[k].index == cached[k] % TWO_TO_32
  {
  }

  /** Exactly when a key is handed out: it is cached, or it lies ahead by at most
      MAX_FORWARD_JUMPS, or anywhere ahead in a session with oneself. */
  lemma TakeKeyIff(hmac: Hmac, chain: ReceiverChain, n: u32, withSelf: bool)
    ensures TakeKey(hmac, chain, n, withSelf).Ok? <==>
      if n < chain.chainKey.index then Has(chain.messageKeys, n)
      else n - chain.chainKey.index <= 25_000 || withSelf
    ensures n < chain.chainKey.index && !Has(chain.messageKeys, n) ==>
      TakeKey(hmac, chain, n, withSelf) == Err(DuplicatedMessage)
  {
    if n < chain.chainKey.index && Has(chain.messageKeys, n) {
      assert KeyPosition(chain.messageKeys, n).Some?;
    }
  }

  // ------------------------------------------------------- before the index wraps

  /** While the chain has not wrapped, index and position are the same. */
  function Indices(keys: seq<MessageKey>): (r: seq<nat>)
    ensures |r| == |keys|
  {
    seq(|keys|, i requires 0 <= i < |keys| => keys[i].index)
  }

  ghost predicate ChainWindow(hmac: Hmac, seed: Bytes, chain: ReceiverChain, used: set<int>) {
    WindowAt(hmac, seed, chain, Indices(chain.messageKeys), chain.chainKey.index, used)
  }

  lemma UnwrappedPositions(hmac: Hmac, seed: Bytes, chain: ReceiverChain, cached: seq<nat>, next: nat, used: set<int>)
    requires WindowAt(hmac, seed, chain, cached, next, used) && next <= TWO_TO_32
    ensures cached == Indices(chain.messageKeys) && (next < TWO_TO_32 ==> next == chain.chainKey.index)
  {
    assert forall i :: 0 <= i < |cached| ==> chain.messageKeys[i].index == cached[i] % TWO_TO_32;
  }

  /** The chain went past its last 32-bit index: it stands at index 0 with the chain key of position
      2^32, and the keys it cached before are still there. */
  ghost predicate Wrapped(hmac: Hmac, seed: Bytes, chain: ReceiverChain, used: set<int>) {
    WindowAt(hmac, seed, chain, Indices(chain.messageKeys), TWO_TO_32, used)
  }

  /** In particular, while the chain has not wrapped: the key handed out is the one of that index, an index
      not handed out before; taking the last 32-bit index wraps the chain. */
  lemma TakeKeyKeepsWindow(hmac: Hmac, seed: Bytes, chain: ReceiverChain, n: u32, withSelf: bool, used: set<int>)
    requires ChainWindow(hmac, seed, chain, used) && TakeKey(hmac, chain, n, withSelf).Ok?
    ensures n !in used
    ensures TakeKey(hmac, chain, n, withSelf).value.1 == MessageKeyAt(hmac, seed, n)
    ensures TakeKey(hmac, chain, n, withSelf).value.0.ratchetKey == chain.ratchetKey
    ensures var after := TakeKey(hmac, chain, n, withSelf).value.0;
      if n < U32_MAX then ChainWindow(hmac, seed, after, used + {n}) else Wrapped(hmac, seed, after, used + {n})
  {
    hide TakeKey, MessageKeyAt, CachedAfter, WindowAt;
    var cached, next := Indices(chain.messageKeys), chain.chainKey.index;
    TakeKeyKeepsPositions(hmac, seed, chain, n, withSelf, cached, next, used);
    PositionIsIndex(hmac, seed, chain, used, n, withSelf);
    UnwrappedPositions(hmac, seed, TakeKey(hmac, chain, n, withSelf).value.0, CachedAfter(chain, cached, next, n),
                       Later(next, n), used + {n as int});
  }

  lemma PositionIsIndex(hmac: Hmac, seed: Bytes, chain: ReceiverChain, used: set<int>, n: u32, withSelf: bool)
    requires ChainWindow(hmac, seed, chain, used) && TakeKey(hmac, chain, n, withSelf).Ok?
    ensures PositionFor(chain, Indices(chain.messageKeys), chain.chainKey.index, n) == n
  {
  }

  /** A wrapped chain starts over: at once it hands out an index exactly when it is at most 25,000, or any
      in a session with oneself, and then the key of the position 2^32 further on; no key cached
      before is handed out, and the index that wrapped it is refused. */
  lemma WrapStartsOver(hmac: Hmac, seed: Bytes, chain: ReceiverChain, used: set<int>, n: u32, withSelf: bool)
    requires Wrapped(hmac, seed, chain, used)
    ensures var r := TakeKey(hmac, chain, n, withSelf);
      (r.Ok? <==> n <= 25_000 || withSelf) && (r.Err? ==> r.error == InvalidMessage)
      && (r.Ok? ==> r.value.1 == MessageKey(n, hmac(ChainSeed(hmac, seed, TWO_TO_32 + n), MESSAGE_KEY_SEED)))
  {
    hide TakeKey, ChainSeed, Window, CachedAfter;
    TakeKeyIff(hmac, chain, n, withSelf);
    if TakeKey(hmac, chain, n, withSelf).Ok? {
      TakeKeyKeepsPositions(hmac, seed, chain, n, withSelf, Indices(chain.messageKeys), TWO_TO_32, used);
    } else {
      AheadIsInvalid(hmac, chain, n, withSelf);
    }
  }

  lemma AheadIsInvalid(hmac: Hmac, chain: ReceiverChain, n: u32, withSelf: bool)
    requires n >= chain.chainKey.index && TakeKey(hmac, chain, n, withSelf).Err?
    ensures TakeKey(hmac, chain, n, withSelf) == Err(InvalidMessage)
  {
  }
}
