/** What `TakeKey` does to one sender-key state: which keys it keeps, which it returns, and
    when it refuses. `start` is the chain key the state was made from. */
module SenderKeyChain {
  import opened Wrappers
  import opened Bytes
  import opened KdfChain
  import opened SenderKeys

  function ChainAt(hmac: Hmac, start: SenderChainKey, n: u32): SenderChainKey
    requires start.iteration <= n
  {
    SenderChainKey(n, ChainSeed(hmac, start.chainKey, n - start.iteration))
  }

  function KeyAt(hmac: Hmac, start: SenderChainKey, n: u32): SenderMessageKey
    requires start.iteration <= n
  {
    SenderMessageKey(n, hmac(ChainSeed(hmac, start.chainKey, n - start.iteration), [0x01]))
  }

  ghost predicate Has(keys: seq<SenderMessageKey>, n: int) {
    exists k :: 0 <= k < |keys| && keys[k].iteration == n
  }

  /** The invariant of a state whose chain stands at `next` and from which the iterations in
      `used` were handed out: the cache is sorted, bounded, derived from `start`, holds nothing
      used, and holds every unused iteration of the last MAX_MESSAGE_KEYS. */
  ghost predicate Window(hmac: Hmac, start: SenderChainKey, keys: seq<SenderMessageKey>, next: u32, used: set<int>) {
    && start.iteration <= next
    && |keys| <= 2_000
    && (forall i, j :: 0 <= i < j < |keys| ==> keys[i].iteration < keys[j].iteration)
    && (forall i :: 0 <= i < |keys| ==> start.iteration <= keys[i].iteration < next
                                        && keys[i] == KeyAt(hmac, start, keys[i].iteration))
    && (forall n :: n in used ==> start.iteration <= n < next && !Has(keys, n))
    && (forall n: int :: start.iteration <= n < next && next - n <= 2_000 && n !in used ==> Has(keys, n))
  }

  ghost predicate StateWindow(hmac: Hmac, start: SenderChainKey, st: StateStructure, used: set<int>) {
    && st.senderChainKey.Some?
    && start.iteration <= st.senderChainKey.value.iteration
    && st.senderChainKey.value == ChainAt(hmac, start, st.senderChainKey.value.iteration)
    && Window(hmac, start, st.messageKeys, st.senderChainKey.value.iteration, used)
  }

  lemma {:induction false} SortedSpread(keys: seq<SenderMessageKey>, i: nat, j: nat)
    requires forall a, b :: 0 <= a < b < |keys| ==> keys[a].iteration < keys[b].iteration
    requires i <= j < |keys|
    ensures keys[j].iteration - keys[i].iteration >= j - i
    decreases j
  {
    if i < j {
      SortedSpread(keys, i, j - 1);
    }
  }

  lemma PushAdds(keys: seq<SenderMessageKey>, key: SenderMessageKey, n: int)
    requires Has(PushKey(keys, key), n) && n != key.iteration
    ensures Has(keys, n)
  {
    var longer, kept := keys + [key], PushKey(keys, key);
    var k :| 0 <= k < |kept| && kept[k].iteration == n;
    assert longer[k + |longer| - |kept|].iteration == n;
    assert keys[k + |longer| - |kept|].iteration == n;
  }

  lemma HasLonger(keys: seq<SenderMessageKey>, key: SenderMessageKey, n: int) returns (k: nat)
    requires n == key.iteration || Has(keys, n)
    ensures k < |keys + [key]| && (keys + [key])[k].iteration == n
  {
    if n == key.iteration {
      k := |keys|;
    } else {
      k :| 0 <= k < |keys| && keys[k].iteration == n;
    }
  }

  /** A key less than MAX_MESSAGE_KEYS behind is not the one dropped. */
  lemma PushHolds(keys: seq<SenderMessageKey>, key: SenderMessageKey, n: int)
    requires |keys| <= MAX_MESSAGE_KEYS
    requires forall i, j :: 0 <= i < j < |keys + [key]| ==> (keys + [key])[i].iteration < (keys + [key])[j].iteration
    requires (n == key.iteration || Has(keys, n)) && key.iteration - n < MAX_MESSAGE_KEYS
    ensures Has(PushKey(keys, key), n)
  {
    var longer, kept := keys + [key], PushKey(keys, key);
    var k := HasLonger(keys, key, n);
    SortedSpread(longer, k, |longer| - 1);
    assert kept[k - (|longer| - |kept|)].iteration == n;
  }

  lemma PushIs(keys: seq<SenderMessageKey>, key: SenderMessageKey, i: nat)
    requires |keys| <= MAX_MESSAGE_KEYS && i < |PushKey(keys, key)|
    ensures var gap := if |keys| < MAX_MESSAGE_KEYS then 0 else 1;
      |PushKey(keys, key)| == |keys| + 1 - gap
      && PushKey(keys, key)[i] == if i + gap < |keys| then keys[i + gap] else key
  {
  }

  lemma PushShape(keys: seq<SenderMessageKey>, key: SenderMessageKey)
    requires |keys| <= MAX_MESSAGE_KEYS && forall i :: 0 <= i < |keys| ==> keys[i].iteration < key.iteration
    requires forall i, j :: 0 <= i < j < |keys| ==> keys[i].iteration < keys[j].iteration
    ensures var kept := PushKey(keys, key);
      |kept| <= MAX_MESSAGE_KEYS && (forall i, j :: 0 <= i < j < |kept| ==> kept[i].iteration < kept[j].iteration)
      && forall i :: 0 <= i < |kept| ==> kept[i] == key || kept[i] in keys
  {
    hide PushKey;
    var kept := PushKey(keys, key);
    if |kept| > 0 {
      PushIs(keys, key, 0);
    }
    forall i, j | 0 <= i < j < |kept|
      ensures kept[i].iteration < kept[j].iteration
    {
      PushIs(keys, key, i);
      PushIs(keys, key, j);
    }
    forall i | 0 <= i < |kept|
      ensures kept[i] == key || kept[i] in keys
    {
      PushIs(keys, key, i);
    }
  }

  /** Caching the chain's current key and stepping past it loses only what left the window. */
  lemma PushKeepsWindow(hmac: Hmac, start: SenderChainKey, keys: seq<SenderMessageKey>, next: u32, used: set<int>)
    requires Window(hmac, start, keys, next, used) && next < U32_MAX
    ensures Window(hmac, start, PushKey(keys, KeyAt(hmac, start, next)), next + 1, used)
  {
    var key := KeyAt(hmac, start, next);
    assert key.iteration == next;
    hide KeyAt, Has, PushKey;
    PushShape(keys, key);
    forall n: int | Has(PushKey(keys, key), n) && n != next
      ensures Has(keys, n)
    {
      PushAdds(keys, key, n);
    }
    forall n: int | (n == next || Has(keys, n)) && next - n < MAX_MESSAGE_KEYS
      ensures Has(PushKey(keys, key), n)
    {
      PushHolds(keys, key, n);
    }
  }

  lemma {:induction false} SkipKeepsWindow(hmac: Hmac, start: SenderChainKey, keys: seq<SenderMessageKey>,
                                           next: u32, target: u32, used: set<int>)
    requires Window(hmac, start, keys, next, used) && next <= target
    ensures var r := SkipTo(hmac, keys, ChainAt(hmac, start, next), target);
      r.1 == ChainAt(hmac, start, target) && Window(hmac, start, r.0, target, used)
    decreases target - next
  {
    if next < target {
      PushKeepsWindow(hmac, start, keys, next, used);
      SkipKeepsWindow(hmac, start, PushKey(keys, KeyAt(hmac, start, next)), next + 1, target, used);
    }
  }

  lemma RemovalHas(keys: seq<SenderMessageKey>, k: nat, n: int)
    requires k < |keys|
    requires forall i, j :: 0 <= i < j < |keys| ==> keys[i].iteration < keys[j].iteration
    ensures Has(Without(keys, k), n) <==> Has(keys, n) && n != keys[k].iteration
  {
    var rest := Without(keys, k);
    if Has(keys, n) && n != keys[k].iteration {
      var i :| 0 <= i < |keys| && keys[i].iteration == n;
      assert rest[if i < k then i else i - 1].iteration == n;
    }
    if Has(rest, n) {
      var i :| 0 <= i < |rest| && rest[i].iteration == n;
      assert keys[if i < k then i else i + 1].iteration == n;
    }
  }

  lemma RemovalKeepsWindow(hmac: Hmac, start: SenderChainKey, keys: seq<SenderMessageKey>, next: u32,
                           k: nat, used: set<int>)
    requires Window(hmac, start, keys, next, used) && k < |keys|
    ensures keys[k].iteration !in used
    ensures Window(hmac, start, Without(keys, k), next, used + {keys[k].iteration})
  {
    assert Has(keys, keys[k].iteration);
    forall n: int
      ensures Has(Without(keys, k), n) <==> Has(keys, n) && n != keys[k].iteration
    {
      RemovalHas(keys, k, n);
    }
  }

  /** A successful `TakeKey` returns the key of that iteration of the chain, an iteration that was
      not handed out before, and keeps the invariant with it handed out. */
  lemma TakeKeyKeepsWindow(hmac: Hmac, start: SenderChainKey, st: StateStructure, n: u32, used: set<int>)
    requires StateWindow(hmac, start, st, used)
    requires TakeKey(hmac, st, n).Ok?
    ensures start.iteration <= n && n !in used
    ensures TakeKey(hmac, st, n).value.1 == KeyAt(hmac, start, n)
    ensures StateWindow(hmac, start, TakeKey(hmac, st, n).value.0, used + {n})
  {
    var next := st.senderChainKey.value.iteration;
    if next > n {
      RemovalKeepsWindow(hmac, start, st.messageKeys, next, KeyPosition(st.messageKeys, n).value, used);
    } else {
      SkipKeepsWindow(hmac, start, st.messageKeys, next, n, used);
      UseCurrent(hmac, start, SkipTo(hmac, st.messageKeys, st.senderChainKey.value, n).0, n, used);
    }
  }

  /** Using the chain's current key and stepping past it. */
  lemma UseCurrent(hmac: Hmac, start: SenderChainKey, keys: seq<SenderMessageKey>, next: u32, used: set<int>)
    requires Window(hmac, start, keys, next, used) && next < U32_MAX
    ensures next !in used
    ensures Window(hmac, start, keys, next + 1, used + {next})
    ensures ChainAt(hmac, start, next).Next(hmac) == Ok(ChainAt(hmac, start, next + 1))
  {
  }

  /** Exactly when a key is handed out: it is cached, or it lies ahead by at most
      MAX_FORWARD_JUMPS and is not the last 32-bit iteration. */
  lemma TakeKeyIff(hmac: Hmac, st: StateStructure, n: u32)
    requires st.senderChainKey.Some?
    ensures TakeKey(hmac, st, n).Ok? <==>
      var next := st.senderChainKey.value.iteration;
      if n < next then Has(st.messageKeys, n) else n - next <= MAX_FORWARD_JUMPS && n < U32_MAX
  {
    if n < st.senderChainKey.value.iteration && Has(st.messageKeys, n) {
      assert KeyPosition(st.messageKeys, n).Some?;
    }
  }

  /** No unread key is lost inside the window: an iteration that was never handed out, at or after
      the start, at most 2,000 behind the chain and at most 25,000 ahead of it, is handed out
      now; one that was handed out is refused as a duplicate. */
  lemma UnreadIsAvailable(hmac: Hmac, start: SenderChainKey, st: StateStructure, n: u32, used: set<int>)
    requires StateWindow(hmac, start, st, used)
    ensures var next := st.senderChainKey.value.iteration;
      start.iteration <= n < U32_MAX && n !in used && next - MAX_MESSAGE_KEYS <= n <= next + MAX_FORWARD_JUMPS
      ==> TakeKey(hmac, st, n).Ok?
    ensures n in used ==> TakeKey(hmac, st, n) == Err(DuplicatedMessage)
  {
    TakeKeyIff(hmac, st, n);
  }
}
