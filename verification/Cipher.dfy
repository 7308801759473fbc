/**
 * The stream cipher behind the server browser: a deck of 256 cards that is rearranged
 * by every byte, and the packet format that carries its key.
 */
module Cipher {
  import opened Bytes

  const SECRET_LENGTH := 6
  const KEY_LENGTH := 8
  const SERVER_CHALLENGE_LENGTH := 14
  const HEADER_LENGTH := 23

  type Deck = s: seq<byte> | |s| == 256 witness Sorted(256)
  type Key = s: seq<byte> | |s| == KEY_LENGTH witness [0, 0, 0, 0, 0, 0, 0, 0]
  type Secret = s: seq<byte> | |s| == SECRET_LENGTH witness [0, 0, 0, 0, 0, 0]

  /** The cards 0, 1, ..., n - 1 in order. */
  function Sorted(n: nat): (s: seq<byte>)
    requires n <= 256
    ensures |s| == n && forall i :: 0 <= i < n ==> s[i] == i
  {
    seq(n, i requires 0 <= i < n => i)
  }

  /** A deck in which no card is missing and none occurs twice. */
  ghost predicate IsPermutation(cards: seq<byte>) {
    && |cards| == 256
    && (forall i, j :: 0 <= i < j < 256 ==> cards[i] != cards[j])
    && (forall v: byte :: v in cards)
  }

  function Swap(cards: Deck, i: byte, j: byte): Deck {
    cards[i := cards[j]][j := cards[i]]
  }

  lemma SwapKeepsPermutation(cards: Deck, i: byte, j: byte)
    requires IsPermutation(cards)
    ensures IsPermutation(Swap(cards, i, j))
  {
    var after := Swap(cards, i, j);
    forall v: byte ensures v in after {
      assert v in cards;
      var k :| 0 <= k < |cards| && cards[k] == v;
      assert after[if k == i then j else if k == j then i else k] == v;
    }
  }

  lemma SortedIsPermutation()
    ensures IsPermutation(Sorted(256))
  {
    forall v: byte ensures v in Sorted(256) {
      assert Sorted(256)[v] == v;
    }
  }

  // ---- the key schedule ------------------------------------------------------------

  /** A mask of low bits: 0, 1, 3, ..., 255. */
  ghost predicate AllOnes(m: int) {
    exists k: nat :: k <= 8 && m + 1 == Pow2(k)
  }

  /** The mask of `shuffle`: the least number of the form 2^k - 1 that covers the limit. */
  function Widen(mask: byte, limit: byte): (m: byte)
    requires 1 <= mask && AllOnes(mask)
    decreases 256 - mask
  {
    if mask < limit then NoOverflow(mask, limit); Widen(2 * mask + 1, limit) else mask
  }

  lemma NoOverflow(mask: byte, limit: byte)
    requires 1 <= mask < limit && AllOnes(mask)
    ensures 2 * mask + 1 < 256 && Add(Mul(mask, 2), 1) == 2 * mask + 1
    ensures AllOnes(2 * mask + 1)
  {
    var k: nat :| k <= 8 && mask + 1 == Pow2(k);
    Pow2Of8();
    assert k < 8;
    assert Pow2(7) == 128;
    Pow2Monotone(k, 7);
    assert 2 * mask + 2 == Pow2(k + 1);
  }

  lemma {:induction false} Pow2Monotone(a: nat, b: nat)
    requires a <= b
    ensures Pow2(a) <= Pow2(b)
  {
    if a < b {
      Pow2Monotone(a, b - 1);
    }
  }

  function Mask(limit: byte): byte {
    assert 1 + 1 == Pow2(1);
    Widen(1, limit)
  }

  /** The mask covers the limit but is not wide enough to cover it twice. */
  lemma MaskIsTight(limit: byte)
    requires limit > 0
    ensures limit <= Mask(limit) < 2 * limit
    ensures AllOnes(Mask(limit))
  {
    assert 1 + 1 == Pow2(1);
    WidenIsTight(1, limit);
  }

  lemma {:induction false} WidenIsTight(mask: byte, limit: byte)
    requires 1 <= mask < 2 * limit && AllOnes(mask)
    ensures limit <= Widen(mask, limit) < 2 * limit
    ensures AllOnes(Widen(mask, limit))
    decreases 256 - mask
  {
    if mask < limit {
      NoOverflow(mask, limit);
      WidenIsTight(2 * mask + 1, limit);
    }
  }

  datatype Cursor = Cursor(rsum: byte, keypos: nat)

  /** One round of mixing a card and a key byte into the running sum. */
  function Draw(cards: Deck, key: Key, c: Cursor): (d: Cursor)
    requires c.keypos < KEY_LENGTH
    ensures d.keypos < KEY_LENGTH
  {
    var rsum := Add(cards[c.rsum], key[c.keypos]);
    if c.keypos + 1 >= KEY_LENGTH then Cursor(Add(rsum, KEY_LENGTH), 0) else Cursor(rsum, c.keypos + 1)
  }

  function Draws(cards: Deck, key: Key, c: Cursor, n: nat): (d: Cursor)
    requires c.keypos < KEY_LENGTH
    ensures d.keypos < KEY_LENGTH
  {
    if n == 0 then c else Draw(cards, key, Draws(cards, key, c, n - 1))
  }

  /** The card proposed by round `n` of `shuffle`; round 12 is forced below the limit. */
  function Proposal(cards: Deck, key: Key, limit: byte, c: Cursor, n: nat): byte
    requires c.keypos < KEY_LENGTH && limit > 0
  {
    var u := And(Mask(limit), Draws(cards, key, c, n).rsum);
    if n >= 12 then u % limit else u
  }

  /** The first round, from `n` on, whose proposal respects the limit. */
  function FirstRound(cards: Deck, key: Key, limit: byte, c: Cursor, n: nat): (m: nat)
    requires c.keypos < KEY_LENGTH && limit > 0
    requires 1 <= n <= 12
    ensures n <= m <= 12
    ensures Proposal(cards, key, limit, c, m) <= limit
    ensures forall k :: n <= k < m ==> Proposal(cards, key, limit, c, k) > limit
    decreases 12 - n
  {
    if Proposal(cards, key, limit, c, n) <= limit then n else FirstRound(cards, key, limit, c, n + 1)
  }

  function Shuffle(cards: Deck, key: Key, limit: byte, c: Cursor): (r: (byte, Cursor))
    requires c.keypos < KEY_LENGTH
    ensures r.0 <= limit && r.1.keypos < KEY_LENGTH
  {
    if limit == 0 then (0, c)
    else
      var m := FirstRound(cards, key, limit, c, 1);
      (Proposal(cards, key, limit, c, m), Draws(cards, key, c, m))
  }

  // ---- the draws, told round by round ----------------------------------------------

  lemma NextKeyPosition(k: nat)
    ensures (k + 1) % 8 == if k % 8 + 1 >= 8 then 0 else k % 8 + 1
  {
  }

  /** The place in the key after some draws: it is read in turn. */
  function KeyAt(from: Cursor, draws: nat): (k: nat)
    ensures k < 8
  {
    (from.keypos + draws) % 8
  }

  lemma {:induction false} DrawsInTurn(cards: Deck, key: Key, c: Cursor, n: nat)
    requires c.keypos < KEY_LENGTH
    ensures Draws(cards, key, c, n).keypos == KeyAt(c, n)
    ensures n > 0 ==>
      Draws(cards, key, c, n).rsum == NextSum(cards, key, Draws(cards, key, c, n - 1).rsum, KeyAt(c, n - 1))
  {
    if n > 0 {
      DrawsInTurn(cards, key, c, n - 1);
      NextKeyPosition(c.keypos + n - 1);
      DrawIsNext(cards, key, Draws(cards, key, c, n - 1));
      hide Draw, NextSum;
    }
  }

  lemma DrawIsNext(cards: Deck, key: Key, c: Cursor)
    requires c.keypos < KEY_LENGTH
    ensures Draw(cards, key, c).rsum == NextSum(cards, key, c.rsum, c.keypos)
    ensures Draw(cards, key, c).keypos == if c.keypos + 1 >= 8 then 0 else c.keypos + 1
  {
    SumsWrap(cards[c.rsum], key[c.keypos], 8);
    hide Add;
  }

  lemma SumsWrap(x: byte, y: byte, z: byte)
    ensures Add(Add(x, y), z) == (x as int + y as int + z as int) % 256
    ensures Add(x, y) == (x as int + y as int) % 256
  {
  }

  /** The sum moves to the card it points to, plus a key byte, plus eight after the last key byte. */
  function NextSum(cards: Deck, key: Key, sum: byte, keypos: nat): byte
    requires keypos < 8
  {
    var card: int := cards[sum];
    (card + key[keypos] + if keypos == 7 then 8 else 0) % 256
  }

  /** Each sum of the list follows from the one before it, and the key is read in turn. */
  ghost predicate InTurn(cards: Deck, key: Key, from: Cursor, to: Cursor, sums: seq<byte>) {
    && sums != [] && sums[0] == from.rsum && sums[|sums| - 1] == to.rsum
    && to.keypos == KeyAt(from, |sums| - 1)
    && forall i :: 0 <= i < |sums| - 1 ==> sums[i + 1] == NextSum(cards, key, sums[i], KeyAt(from, i))
  }

  /**
   * The card is the first of the masked sums that is not above the limit, and of at most twelve; the
   * twelfth is brought below the limit.
   */
  ghost predicate Drawn(cards: Deck, key: Key, limit: byte, from: Cursor, u: byte, to: Cursor, sums: seq<byte>) {
    && InTurn(cards, key, from, to, sums)
    && if limit == 0 then |sums| == 1 && u == 0
       else
         && 2 <= |sums| <= 13
         && (forall i :: 1 <= i < |sums| - 1 ==> And(Mask(limit), sums[i]) > limit)
         && u <= limit
         && u == if |sums| == 13 then And(Mask(limit), to.rsum) % limit else And(Mask(limit), to.rsum)
  }

  ghost predicate IsDrawn(cards: Deck, key: Key, limit: byte, from: Cursor, u: byte, to: Cursor) {
    exists sums :: Drawn(cards, key, limit, from, u, to, sums)
  }

  function Sums(cards: Deck, key: Key, c: Cursor, m: nat): (sums: seq<byte>)
    requires c.keypos < KEY_LENGTH
    ensures |sums| == m + 1 && forall i :: 0 <= i <= m ==> sums[i] == Draws(cards, key, c, i).rsum
  {
    seq(m + 1, i requires 0 <= i <= m => Draws(cards, key, c, i).rsum)
  }

  lemma SumsInTurn(cards: Deck, key: Key, c: Cursor, m: nat)
    requires c.keypos < KEY_LENGTH
    ensures InTurn(cards, key, c, Draws(cards, key, c, m), Sums(cards, key, c, m))
  {
    hide NextSum, Draws, KeyAt;
    DrawNothing(cards, key, c);
    DrawsInTurn(cards, key, c, m);
    var sums := Sums(cards, key, c, m);
    forall i | 0 <= i < m ensures sums[i + 1] == NextSum(cards, key, sums[i], KeyAt(c, i)) {
      DrawsInTurn(cards, key, c, i + 1);
    }
  }

  lemma ShuffleDraws(cards: Deck, key: Key, limit: byte, c: Cursor)
    requires c.keypos < KEY_LENGTH
    ensures var (u, d) := Shuffle(cards, key, limit, c); IsDrawn(cards, key, limit, c, u, d)
  {
    hide And, Mask, Draws, InTurn, Sums;
    var (u, d) := Shuffle(cards, key, limit, c);
    DrawNothing(cards, key, c);
    var m := if limit == 0 then 0 else FirstRound(cards, key, limit, c, 1);
    var sums := Sums(cards, key, c, m);
    SumsInTurn(cards, key, c, m);
    assert Drawn(cards, key, limit, c, u, d, sums);
  }

  lemma DrawNothing(cards: Deck, key: Key, c: Cursor)
    requires c.keypos < KEY_LENGTH
    ensures Draws(cards, key, c, 0) == c
  {
  }

  /** The deck after the cards `n - 1`, ..., 1, 0 have each been swapped, and the cursor. */
  function Deal(cards: Deck, key: Key, n: nat, c: Cursor): (Deck, Cursor)
    requires n <= 256 && c.keypos < KEY_LENGTH
    decreases n
  {
    if n == 0 then (cards, c)
    else
      var (u, d) := Shuffle(cards, key, n - 1, c);
      Deal(Swap(cards, n - 1, u), key, n - 1, d)
  }

  lemma {:induction false} DealKeepsPermutation(cards: Deck, key: Key, n: nat, c: Cursor)
    requires n <= 256 && c.keypos < KEY_LENGTH && IsPermutation(cards)
    ensures IsPermutation(Deal(cards, key, n, c).0)
    decreases n
  {
    if n > 0 {
      var (u, d) := Shuffle(cards, key, n - 1, c);
      SwapKeepsPermutation(cards, n - 1, u);
      DealKeepsPermutation(Swap(cards, n - 1, u), key, n - 1, d);
    }
  }

  /** Two cards have changed places. */
  ghost predicate Exchanged(before: Deck, after: Deck, i: byte, j: byte) {
    && after[i] == before[j] && after[j] == before[i]
    && forall k :: 0 <= k < 256 && k != i && k != j ==> after[k] == before[k]
  }

  /** A position is exchanged with the card drawn for it. */
  ghost predicate DealtOne(key: Key, at: byte, before: Deck, after: Deck, from: Cursor, to: Cursor, pick: byte) {
    Exchanged(before, after, at, pick) && IsDrawn(before, key, at, from, pick, to)
  }

  /** The decks, cursors and choices on the way, from position `n - 1` down. */
  ghost predicate Dealing(key: Key, n: nat, decks: seq<Deck>, cursors: seq<Cursor>, picks: seq<byte>)
    requires n <= 256
  {
    && |decks| == |cursors| == n + 1 && |picks| == n
    && forall i :: 0 <= i < n ==> DealtOne(key, n - 1 - i, decks[i], decks[i + 1], cursors[i], cursors[i + 1], picks[i])
  }

  lemma DealingOneMore(key: Key, n: nat, decks: seq<Deck>, cursors: seq<Cursor>, picks: seq<byte>, cards: Deck,
                       c: Cursor, u: byte)
    requires n < 256 && Dealing(key, n, decks, cursors, picks)
    requires DealtOne(key, n, cards, decks[0], c, cursors[0], u)
    ensures Dealing(key, n + 1, [cards] + decks, [c] + cursors, [u] + picks)
  {
    hide DealtOne;
    var ds, cs, ps := [cards] + decks, [c] + cursors, [u] + picks;
    forall i | 0 <= i < n + 1 ensures DealtOne(key, n - i, ds[i], ds[i + 1], cs[i], cs[i + 1], ps[i]) {
      if i > 0 {
        assert DealtOne(key, n - 1 - (i - 1), decks[i - 1], decks[i], cursors[i - 1], cursors[i], picks[i - 1]);
      }
    }
  }

  lemma SwapExchanges(cards: Deck, i: byte, j: byte)
    ensures Exchanged(cards, Swap(cards, i, j), i, j)
  {
  }

  lemma {:induction false} DealDeals(cards: Deck, key: Key, n: nat, c: Cursor)
    returns (decks: seq<Deck>, cursors: seq<Cursor>, picks: seq<byte>)
    requires n <= 256 && c.keypos < KEY_LENGTH
    ensures Dealing(key, n, decks, cursors, picks)
    ensures |decks| == |cursors| == n + 1
    ensures decks[0] == cards && cursors[0] == c && Deal(cards, key, n, c) == (decks[n], cursors[n])
    decreases n
  {
    hide Shuffle, Exchanged, IsDrawn, Swap;
    if n == 0 {
      decks, cursors, picks := [cards], [c], [];
    } else {
      var (u, d) := Shuffle(cards, key, n - 1, c);
      var next := Swap(cards, n - 1, u);
      SwapExchanges(cards, n - 1, u);
      ShuffleDraws(cards, key, n - 1, c);
      var ds, cs, ps := DealDeals(next, key, n - 1, d);
      DealingOneMore(key, n - 1, ds, cs, ps, cards, c, u);
      decks, cursors, picks := [cards] + ds, [c] + cs, [u] + ps;
    }
  }

  // ---- the cipher proper -----------------------------------------------------------

  datatype State = State(cards: Deck, rotor: byte, ratchet: byte, avalanche: byte, lastPlain: byte, lastCipher: byte)

  function Start(key: Key): State {
    var deck: Deck := Sorted(256);
    var (cards, c) := Deal(deck, key, |deck|, Cursor(0, 0));
    State(cards, cards[1], cards[3], cards[5], cards[7], cards[c.rsum])
  }

  /**
   * The key setup, told step by step: from the deck in order every position, from the top down, is
   * exchanged with the card drawn for it, and the five indices are read off the deck that results.
   */
  lemma StartDeals(key: Key) returns (decks: seq<Deck>, cursors: seq<Cursor>, picks: seq<byte>)
    ensures |decks| == |cursors| == 257 && Dealing(key, 256, decks, cursors, picks)
    ensures (forall v: byte :: decks[0][v] == v) && cursors[0] == Cursor(0, 0)
    ensures var s := Start(key);
            && s.cards == decks[256]
            && s.rotor == s.cards[1] && s.ratchet == s.cards[3] && s.avalanche == s.cards[5]
            && s.lastPlain == s.cards[7] && s.lastCipher == s.cards[cursors[256].rsum]
  {
    hide Deal, Dealing;
    var deck: Deck := Sorted(256);
    decks, cursors, picks := DealDeals(deck, key, |deck|, Cursor(0, 0));
    StartFrom(key, deck, decks[|deck|], cursors[|deck|]);
  }

  lemma StartFrom(key: Key, deck: Deck, cards: Deck, c: Cursor)
    requires deck == Sorted(256) && Deal(deck, key, |deck|, Cursor(0, 0)) == (cards, c)
    ensures Start(key) == State(cards, cards[1], cards[3], cards[5], cards[7], cards[c.rsum])
  {
    hide Deal;
  }

  /**
   * The rearrangement made before every byte. The four cards move round by three swaps,
   * whichever of the four positions coincide.
   */
  function Advance(s: State): State {
    var ratchet := Add(s.ratchet, s.cards[s.rotor]);
    var rotor := Add(s.rotor, 1);
    var cards := Swap(Swap(Swap(s.cards, s.lastCipher, ratchet), ratchet, s.lastPlain), s.lastPlain, rotor);
    s.(cards := cards, rotor := rotor, ratchet := ratchet, avalanche := Add(s.avalanche, cards[cards[rotor]]))
  }

  /**
   * The card at a position after the rearrangement, told from the deck before it. The rotor gets the
   * card of the last cipher byte, the last plain byte that of the rotor, the ratchet that of the last
   * plain byte and the last cipher byte that of the ratchet. Where positions coincide, the first of
   * these that is named counts, and a card taken from a position that had been given its new one
   * already is that new one.
   */
  function Dealt(cards: Deck, rotor: byte, ratchet: byte, plain: byte, cipher: byte, at: byte): byte {
    if at == rotor then cards[cipher]
    else if at == plain then
      if rotor == ratchet then if plain == cipher then cards[ratchet] else cards[plain]
      else if rotor == cipher then cards[ratchet]
      else cards[rotor]
    else if at == ratchet then if plain == cipher then cards[ratchet] else cards[plain]
    else if at == cipher then cards[ratchet]
    else cards[at]
  }

  /** Where each card goes, how the indices move, and by which card the avalanche grows. */
  lemma AdvanceMoves(s: State)
    ensures var t := Advance(s);
            && t.rotor == (s.rotor + 1) % 256 && t.ratchet == (s.ratchet + s.cards[s.rotor]) % 256
            && t.lastPlain == s.lastPlain && t.lastCipher == s.lastCipher
            && (forall at: byte ::
                  t.cards[at] == Dealt(s.cards, t.rotor, t.ratchet, s.lastPlain, s.lastCipher, at))
            && t.avalanche == (s.avalanche + t.cards[s.cards[s.lastCipher]]) % 256
  {
  }

  /** Four different positions exchange their cards in a ring, and all other cards stay. */
  lemma AdvanceIsRing(s: State)
    requires var t := Advance(s);
             && t.rotor != t.ratchet && t.rotor != s.lastPlain && t.rotor != s.lastCipher
             && t.ratchet != s.lastPlain && t.ratchet != s.lastCipher && s.lastPlain != s.lastCipher
    ensures var t := Advance(s);
            && t.cards[t.rotor] == s.cards[s.lastCipher]
            && t.cards[s.lastCipher] == s.cards[t.ratchet]
            && t.cards[t.ratchet] == s.cards[s.lastPlain]
            && t.cards[s.lastPlain] == s.cards[t.rotor]
            && forall at: byte :: at !in {t.rotor, t.ratchet, s.lastPlain, s.lastCipher} ==> t.cards[at] == s.cards[at]
  {
    AdvanceMoves(s);
    hide Advance;
  }

  /** The two bytes that mask the next byte of the stream. */
  function Pad(s: State): (byte, byte) {
    var c := s.cards[Add(s.cards[s.avalanche], s.cards[s.rotor])];
    var d := s.cards[s.cards[Add(Add(s.cards[s.lastPlain], s.cards[s.lastCipher]), s.cards[s.ratchet])]];
    (c, d)
  }

  /** The byte masked by the card that two cards together point to, and by the one that three point to at one remove. */
  function Masked(cards: Deck, rotor: byte, ratchet: byte, avalanche: byte, plain: byte, cipher: byte, b: byte): byte {
    var ofAvalanche: int, ofPlain: int := cards[avalanche], cards[plain];
    Xor(Xor(b, cards[(ofAvalanche + cards[rotor]) % 256]),
        cards[cards[(ofPlain + cards[cipher] + cards[ratchet]) % 256]])
  }

  function Blend(s: State, b: byte): byte {
    Xor(Xor(b, Pad(s).0), Pad(s).1)
  }

  function EncryptStep(s: State, b: byte): (State, byte) {
    var t := Advance(s);
    var e := Blend(t, b);
    (t.(lastPlain := b, lastCipher := e), e)
  }

  function DecryptStep(s: State, b: byte): (State, byte) {
    var t := Advance(s);
    var p := Blend(t, b);
    (t.(lastPlain := p, lastCipher := b), p)
  }

  /** The state after a byte, but for the two bytes that are remembered, and what masked it. */
  ghost predicate Stepped(s: State, t: State, b: byte, masked: byte) {
    && t.rotor == (s.rotor + 1) % 256 && t.ratchet == (s.ratchet + s.cards[s.rotor]) % 256
    && (forall at: byte :: t.cards[at] == Dealt(s.cards, t.rotor, t.ratchet, s.lastPlain, s.lastCipher, at))
    && t.avalanche == (s.avalanche + t.cards[s.cards[s.lastCipher]]) % 256
    && masked == Masked(t.cards, t.rotor, t.ratchet, t.avalanche, s.lastPlain, s.lastCipher, b)
  }

  lemma BlendMasks(t: State, b: byte)
    ensures Blend(t, b) == Masked(t.cards, t.rotor, t.ratchet, t.avalanche, t.lastPlain, t.lastCipher, b)
  {
    hide Xor, Add;
    SumsWrap(t.cards[t.avalanche], t.cards[t.rotor], 0);
    SumsWrap(t.cards[t.lastPlain], t.cards[t.lastCipher], t.cards[t.ratchet]);
  }

  /** One byte in either direction, told without the functions that compute it. */
  lemma StepMeans(s: State, b: byte)
    ensures var (t, e) := EncryptStep(s, b); Stepped(s, t, b, e) && t.lastPlain == b && t.lastCipher == e
    ensures var (t, p) := DecryptStep(s, b); Stepped(s, t, b, p) && t.lastPlain == p && t.lastCipher == b
  {
    AdvanceMoves(s);
    BlendMasks(Advance(s), b);
    hide Advance, Dealt, Blend, Masked;
  }

  function EncryptAll(s: State, data: Bytes): (r: (State, Bytes))
    ensures |r.1| == |data|
    decreases |data|
  {
    if data == [] then (s, [])
    else
      var (t, front) := EncryptAll(s, data[..|data| - 1]);
      var (u, last) := EncryptStep(t, data[|data| - 1]);
      (u, front + [last])
  }

  function DecryptAll(s: State, data: Bytes): (r: (State, Bytes))
    ensures |r.1| == |data|
    decreases |data|
  {
    if data == [] then (s, [])
    else
      var (t, front) := DecryptAll(s, data[..|data| - 1]);
      var (u, last) := DecryptStep(t, data[|data| - 1]);
      (u, front + [last])
  }

  /** One byte: decryption gives the plain byte back and both ends reach the same state. */
  lemma Lockstep(s: State, b: byte)
    ensures DecryptStep(s, EncryptStep(s, b).1) == (EncryptStep(s, b).0, b)
  {
    var t := Advance(s);
    XorPair(b, Pad(t).0, Pad(t).1);
  }

  /** A whole stream: decryption inverts encryption and ends in the same state. */
  lemma {:induction false} StreamRoundTrip(s: State, data: Bytes)
    ensures DecryptAll(s, EncryptAll(s, data).1) == (EncryptAll(s, data).0, data)
    decreases |data|
  {
    hide EncryptStep, DecryptStep;
    if data != [] {
      var n := |data| - 1;
      var (t, front) := EncryptAll(s, data[..n]);
      StreamRoundTrip(s, data[..n]);
      Lockstep(t, data[n]);
      var secret := EncryptAll(s, data).1;
      assert secret[..n] == front;
      assert data == data[..n] + [data[n]];
    }
  }

  /** The deck is a permutation after key setup. */
  lemma StartIsPermutation(key: Key)
    ensures IsPermutation(Start(key).cards)
  {
    SortedIsPermutation();
    var deck: Deck := Sorted(256);
    DealKeepsPermutation(deck, key, |deck|, Cursor(0, 0));
  }

  lemma AdvanceKeepsPermutation(s: State)
    requires IsPermutation(s.cards)
    ensures IsPermutation(Advance(s).cards)
  {
    var ratchet := Add(s.ratchet, s.cards[s.rotor]);
    var rotor := Add(s.rotor, 1);
    SwapKeepsPermutation(s.cards, s.lastCipher, ratchet);
    var one := Swap(s.cards, s.lastCipher, ratchet);
    SwapKeepsPermutation(one, ratchet, s.lastPlain);
    SwapKeepsPermutation(Swap(one, ratchet, s.lastPlain), s.lastPlain, rotor);
  }

  lemma StepKeepsPermutation(s: State, b: byte)
    requires IsPermutation(s.cards)
    ensures IsPermutation(EncryptStep(s, b).0.cards)
    ensures IsPermutation(DecryptStep(s, b).0.cards)
  {
    hide IsPermutation;
    AdvanceKeepsPermutation(s);
  }

  /** The deck is still a permutation after any number of encrypted or decrypted bytes. */
  lemma {:induction false} StreamKeepsPermutation(s: State, data: Bytes)
    requires IsPermutation(s.cards)
    ensures IsPermutation(EncryptAll(s, data).0.cards)
    ensures IsPermutation(DecryptAll(s, data).0.cards)
    decreases |data|
  {
    hide IsPermutation, EncryptStep, DecryptStep;
    if data != [] {
      var n := |data| - 1;
      StreamKeepsPermutation(s, data[..n]);
      StepKeepsPermutation(EncryptAll(s, data[..n]).0, data[n]);
      StepKeepsPermutation(DecryptAll(s, data[..n]).0, data[n]);
    }
  }

  /** The mutable cipher: the deck is rearranged and the indices move in place. */
  class CipherState {
    const cards: array<byte>
    var rotor: byte
    var ratchet: byte
    var avalanche: byte
    var lastPlain: byte
    var lastCipher: byte

    ghost predicate Valid()
      reads this
    {
      cards.Length == 256
    }

    ghost function View(): State
      reads this, cards
      requires Valid()
    {
      State(cards[..], rotor, ratchet, avalanche, lastPlain, lastCipher)
    }

    constructor (key: Key)
      ensures Valid() && fresh(cards)
      ensures View() == Start(key)
    {
      cards := new byte[256];
      rotor, ratchet, avalanche, lastPlain, lastCipher := 0, 0, 0, 0, 0;
      new;
      hide Start;
      Setup(key);
    }

    method Setup(key: Key)
      requires Valid()
      modifies this, cards
      ensures View() == Start(key)
    {
      hide Start, Deal;
      FillCards();
      ghost var deck := cards[..];
      var rsum, keypos := DealCards(key);
      StartFrom(key, deck, cards[..], Cursor(rsum, keypos));
      rotor := cards[1];
      ratchet := cards[3];
      avalanche := cards[5];
      lastPlain := cards[7];
      lastCipher := cards[rsum];
    }

    method FillCards()
      requires Valid()
      modifies cards
      ensures cards[..] == Sorted(256)
    {
      for i := 0 to 256
        invariant forall k :: 0 <= k < i ==> cards[k] == k
      {
        cards[i] := i;
      }
    }

    /** Swaps the card at each position, from the top down, with some card not above it. */
    method DealCards(key: Key) returns (rsum: byte, keypos: byte)
      requires Valid()
      modifies cards
      ensures Deal(old(cards[..]), key, |old(cards[..])|, Cursor(0, 0)) == (cards[..], Cursor(rsum, keypos))
    {
      hide Shuffle;
      ghost var deck := cards[..];
      rsum, keypos := 0, 0;
      var i := 255;
      while i >= 0
        invariant -1 <= i <= 255 && keypos < KEY_LENGTH
        invariant Deal(cards[..], key, i + 1, Cursor(rsum, keypos)) == Deal(deck, key, |deck|, Cursor(0, 0))
        decreases i
      {
        var toswap;
        toswap, rsum, keypos := ShuffleCards(key, i, rsum, keypos);
        SwapCards(i, toswap);
        i := i - 1;
      }
      assert Deal(cards[..], key, 0, Cursor(rsum, keypos)) == (cards[..], Cursor(rsum, keypos));
    }

    method SwapCards(i: byte, j: byte)
      requires Valid()
      modifies cards
      ensures cards[..] == Swap(old(cards[..]), i, j)
    {
      cards[i], cards[j] := cards[j], cards[i];
    }

    static method FillMask(limit: byte) returns (mask: byte)
      ensures mask == Mask(limit)
    {
      mask := 1;
      assert 1 + 1 == Pow2(1);
      while mask < limit
        invariant 1 <= mask && AllOnes(mask)
        invariant Widen(mask, limit) == Mask(limit)
        decreases 256 - mask
      {
        NoOverflow(mask, limit);
        mask := Add(Mul(mask, 2), 1);
      }
    }

    method ShuffleCards(key: Key, limit: byte, rsum0: byte, keypos0: byte) returns (u: byte, rsum: byte, keypos: byte)
      requires Valid() && keypos0 < KEY_LENGTH
      ensures keypos < KEY_LENGTH
      ensures (u, Cursor(rsum, keypos)) == Shuffle(cards[..], key, limit, Cursor(rsum0, keypos0))
    {
      rsum, keypos := rsum0, keypos0;
      if limit == 0 {
        return 0, rsum, keypos;
      }
      var mask := FillMask(limit);
      hide Mask, And, Add, FirstRound;
      ghost var deck := cards[..];
      ghost var start := Cursor(rsum, keypos);
      var retries := 0;
      while true
        invariant 0 <= retries <= 11 && keypos < KEY_LENGTH
        invariant Cursor(rsum, keypos) == Draws(deck, key, start, retries)
        invariant FirstRound(deck, key, limit, start, retries + 1) == FirstRound(deck, key, limit, start, 1)
        decreases 12 - retries
      {
        rsum := Add(cards[rsum], key[keypos]);
        keypos := keypos + 1;
        if keypos >= KEY_LENGTH {
          keypos := 0;
          rsum := Add(rsum, KEY_LENGTH);
        }
        u := And(mask, rsum);
        retries := retries + 1;
        assert Cursor(rsum, keypos) == Draws(deck, key, start, retries);
        if retries > 11 {
          u := u % limit;
        }
        assert u == Proposal(deck, key, limit, start, retries);
        if u <= limit {
          break;
        }
      }
    }

    method EncryptByte(b: byte) returns (e: byte)
      requires Valid()
      modifies this, cards
      ensures Valid() && (View(), e) == EncryptStep(old(View()), b)
      ensures Stepped(old(View()), View(), b, e) && lastPlain == b && lastCipher == e
    {
      hide Stepped, Xor;
      ghost var before := View();
      ghost var deck := cards[..];
      StepMeans(before, b);
      ratchet := Add(ratchet, cards[rotor]);
      rotor := Add(rotor, 1);
      var swaptemp := cards[lastCipher];
      cards[lastCipher] := cards[ratchet];
      ghost var one := Swap(deck, lastCipher, ratchet);
      assert cards[..][ratchet := swaptemp] == one;
      cards[ratchet] := cards[lastPlain];
      ghost var two := Swap(one, ratchet, lastPlain);
      assert cards[..][lastPlain := swaptemp] == two;
      cards[lastPlain] := cards[rotor];
      cards[rotor] := swaptemp;
      assert cards[..] == Swap(two, lastPlain, rotor);
      avalanche := Add(avalanche, cards[swaptemp]);
      assert View() == Advance(before);
      var c := cards[Add(cards[avalanche], cards[rotor])];
      var d := cards[cards[Add(Add(cards[lastPlain], cards[lastCipher]), cards[ratchet])]];
      lastCipher := Xor(Xor(b, c), d);
      lastPlain := b;
      return lastCipher;
    }

    method DecryptByte(b: byte) returns (p: byte)
      requires Valid()
      modifies this, cards
      ensures Valid() && (View(), p) == DecryptStep(old(View()), b)
      ensures Stepped(old(View()), View(), b, p) && lastPlain == p && lastCipher == b
    {
      hide Stepped, Xor;
      ghost var before := View();
      ghost var deck := cards[..];
      StepMeans(before, b);
      ratchet := Add(ratchet, cards[rotor]);
      rotor := Add(rotor, 1);
      var swaptemp := cards[lastCipher];
      cards[lastCipher] := cards[ratchet];
      ghost var one := Swap(deck, lastCipher, ratchet);
      assert cards[..][ratchet := swaptemp] == one;
      cards[ratchet] := cards[lastPlain];
      ghost var two := Swap(one, ratchet, lastPlain);
      assert cards[..][lastPlain := swaptemp] == two;
      cards[lastPlain] := cards[rotor];
      cards[rotor] := swaptemp;
      assert cards[..] == Swap(two, lastPlain, rotor);
      avalanche := Add(avalanche, cards[swaptemp]);
      assert View() == Advance(before);
      var c := cards[Add(cards[avalanche], cards[rotor])];
      var d := cards[cards[Add(Add(cards[lastPlain], cards[lastCipher]), cards[ratchet])]];
      lastPlain := Xor(Xor(b, c), d);
      lastCipher := b;
      return lastPlain;
    }

    /** Encrypts, in place, the part of the buffer from `start` on. */
    method Encrypt(data: array<byte>, start: nat)
      requires Valid() && data != cards && start <= data.Length
      modifies this, cards, data
      ensures Valid() && data[..start] == old(data[..start])
      ensures (View(), data[start..]) == EncryptAll(old(View()), old(data[start..]))
    {
      hide EncryptStep, Stepped;
      ghost var plain := data[start..];
      ghost var first := View();
      assert plain[..0] == [] && data[start..start] == [];
      for i := start to data.Length
        invariant Valid() && data[..start] == old(data[..start])
        invariant data[i..] == plain[i - start..]
        invariant (View(), data[start..i]) == EncryptAll(first, plain[..i - start])
      {
        var b := data[i];
        assert b == plain[i - start];
        ghost var done := data[start..i];
        assert plain[..i + 1 - start][..i - start] == plain[..i - start];
        var e := EncryptByte(b);
        data[i] := e;
        assert data[start..i + 1] == done + [e];
      }
      assert plain[..data.Length - start] == plain;
      assert data[start..data.Length] == data[start..];
    }

    /** Decrypts, in place, the part of the buffer from `start` on. */
    method Decrypt(data: array<byte>, start: nat)
      requires Valid() && data != cards && start <= data.Length
      modifies this, cards, data
      ensures Valid() && data[..start] == old(data[..start])
      ensures (View(), data[start..]) == DecryptAll(old(View()), old(data[start..]))
    {
      hide DecryptStep, Stepped;
      ghost var secret := data[start..];
      ghost var first := View();
      assert secret[..0] == [] && data[start..start] == [];
      for i := start to data.Length
        invariant Valid() && data[..start] == old(data[..start])
        invariant data[i..] == secret[i - start..]
        invariant (View(), data[start..i]) == DecryptAll(first, secret[..i - start])
      {
        var b := data[i];
        assert b == secret[i - start];
        ghost var done := data[start..i];
        assert secret[..i + 1 - start][..i - start] == secret[..i - start];
        var p := DecryptByte(b);
        data[i] := p;
        assert data[start..i + 1] == done + [p];
      }
      assert secret[..data.Length - start] == secret;
      assert data[start..data.Length] == data[start..];
    }
  }
}
