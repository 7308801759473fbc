/** The encrypted packet: a 23-byte header that carries the server challenge, then the ciphertext. */
module Crypt {
  import opened Bytes
  import opened Cipher

  /**
   * Round `i` of the key derivation: one key byte, picked by a wrapping product, absorbs
   * another key byte and a byte of the server challenge.
   */
  function KeyRound(secret: Secret, key: Key, challenge: Bytes, i: byte): Key
    requires i < |challenge|
  {
    var k := Mul(i, secret[i % SECRET_LENGTH]) % KEY_LENGTH;
    key[k := Xor(key[k], And(Xor(key[i % KEY_LENGTH], challenge[i]), 0xFF))]
  }

  function KeyRounds(secret: Secret, key: Key, challenge: Bytes, n: nat): Key
    requires n <= |challenge| < 256
  {
    if n == 0 then key else KeyRound(secret, KeyRounds(secret, key, challenge, n - 1), challenge, n - 1)
  }

  /**
   * The key before and after a round: one byte, at the place that the wrapping product of the round and
   * a byte of the secret names, has absorbed a byte of the key and one of the challenge; the others
   * are as before.
   */
  ghost predicate Absorbed(secret: Secret, challenge: Bytes, i: byte, before: Key, after: Key)
    requires i < |challenge|
  {
    var s: int := secret[i % 6];
    var at := i * s % 256 % 8;
    && after[at] == Xor(Xor(before[at], before[i % 8]), challenge[i])
    && forall k :: 0 <= k < 8 && k != at ==> after[k] == before[k]
  }

  lemma KeyRoundAbsorbs(secret: Secret, key: Key, challenge: Bytes, i: byte)
    requires i < |challenge|
    ensures Absorbed(secret, challenge, i, key, KeyRound(secret, key, challenge, i))
  {
    hide Xor, And;
    var s: int := secret[i % 6];
    var at := i * s % 256 % 8;
    AndAllOnes(Xor(key[i % 8], challenge[i]));
    XorAssociates(key[at], key[i % 8], challenge[i]);
    assert Mul(i, secret[i % SECRET_LENGTH]) % KEY_LENGTH == at;
  }

  /** The derivation, told round by round: one round for each byte of the challenge, in order. */
  lemma {:induction false} KeyIsStirred(secret: Secret, key: Key, challenge: Bytes, n: nat) returns (keys: seq<Key>)
    requires n <= |challenge| < 256
    ensures |keys| == n + 1 && keys[0] == key && keys[n] == KeyRounds(secret, key, challenge, n)
    ensures forall i :: 0 <= i < n ==> Absorbed(secret, challenge, i, keys[i], keys[i + 1])
  {
    hide KeyRound, Absorbed;
    if n == 0 {
      keys := [key];
    } else {
      keys := KeyIsStirred(secret, key, challenge, n - 1);
      KeyRoundAbsorbs(secret, keys[n - 1], challenge, n - 1);
      keys := keys + [KeyRounds(secret, key, challenge, n)];
    }
  }

  lemma KeyRoundsStep(secret: Secret, key: Key, challenge: Bytes)
    requires |challenge| < 256
    ensures KeyRounds(secret, key, challenge, 0) == key
    ensures forall n: byte :: n < |challenge| ==>
      KeyRounds(secret, key, challenge, n + 1) == KeyRound(secret, KeyRounds(secret, key, challenge, n), challenge, n)
  {
    hide KeyRound;
  }

  /** The key shared by both ends: the client challenge stirred with the server challenge. */
  function DeriveKey(secret: Secret, client: Key, challenge: Bytes): Key
    requires |challenge| < 256
  {
    KeyRounds(secret, client, challenge, |challenge|)
  }

  /** The header bytes before the four fixed ones are written over the noise. */
  function Noise(secret: Secret, client: Key, random: Bytes): (h: Bytes)
    requires |random| == HEADER_LENGTH
    ensures |h| == HEADER_LENGTH
  {
    seq(HEADER_LENGTH, i requires 0 <= i < HEADER_LENGTH =>
      Xor(Xor(random[i], secret[i % SECRET_LENGTH]), client[i % KEY_LENGTH]))
  }

  function Header(secret: Secret, client: Key, random: Bytes): (h: Bytes)
    requires |random| == HEADER_LENGTH
    ensures |h| == HEADER_LENGTH
  {
    Noise(secret, client, random)[0 := 0xeb][1 := 0][2 := 0][8 := Xor(SERVER_CHALLENGE_LENGTH, 0xea)]
  }

  /** Four bytes are fixed; the others are random bytes masked with the secret and the client's challenge. */
  ghost predicate IsHeader(secret: Secret, client: Key, random: Bytes, h: Bytes)
    requires |random| == 23
  {
    && |h| == 23
    && h[0] == 0xeb && h[1] == 0 && h[2] == 0 && h[8] == 0xe4
    && forall i :: 0 <= i < 23 && i !in {0, 1, 2, 8} ==> h[i] == Xor(Xor(random[i], secret[i % 6]), client[i % 8])
  }

  lemma HeaderBytes(secret: Secret, client: Key, random: Bytes)
    requires |random| == HEADER_LENGTH
    ensures IsHeader(secret, client, random, Header(secret, client, random))
  {
    LengthByte();
    hide Xor;
  }

  lemma LengthByte()
    ensures Xor(14, 0xea) == 0xe4
  {
    hide XorBits;
    XorBitsNone(0, 0);
    XorBitsStep(0, 1, 1);
    XorBitsStep(0, 3, 2);
    XorBitsStep(0, 7, 3);
    XorBitsStep(0, 14, 4);
    XorBitsStep(1, 29, 5);
    XorBitsStep(3, 58, 6);
    XorBitsStep(7, 117, 7);
    XorBitsStep(14, 234, 8);
  }

  function Packet(secret: Secret, client: Key, random: Bytes, data: Bytes): Bytes
    requires |random| == HEADER_LENGTH
  {
    var header := Header(secret, client, random);
    header + EncryptAll(Start(DeriveKey(secret, client, header[9..])), data).1
  }

  /** A packet is a header and as many bytes as the data has, encrypted under the key that the header stirs. */
  lemma PacketBytes(secret: Secret, client: Key, random: Bytes, data: Bytes) returns (keys: seq<Key>)
    requires |random| == HEADER_LENGTH
    ensures var p := Packet(secret, client, random, data);
            && |p| == 23 + |data| && IsHeader(secret, client, random, p[..23])
            && |keys| == 15 && keys[0] == client && p[23..] == EncryptAll(Start(keys[14]), data).1
            && forall i :: 0 <= i < 14 ==> Absorbed(secret, p[9..23], i, keys[i], keys[i + 1])
  {
    hide Start, EncryptAll, IsHeader, KeyRounds, Absorbed, Header;
    HeaderBytes(secret, client, random);
    var header := Header(secret, client, random);
    keys := KeyIsStirred(secret, client, header[9..], |header[9..]|);
    var p := Packet(secret, client, random, data);
    assert p[..23] == header && p[9..23] == header[9..] && p[23..] == p[|header|..];
  }

  // ---- reading a packet ------------------------------------------------------------

  /** The offset of the server challenge, as byte 0 announces it. */
  function Offset(packet: Bytes): byte
    requires |packet| > 0
  {
    Add(Xor(packet[0], 0xec), 2)
  }

  /** Whether the announced offset and length stay inside the packet. */
  predicate Readable(packet: Bytes) {
    && |packet| > 0
    && Add(Offset(packet), 255) < |packet|
    && Offset(packet) + Length(packet) < 256
    && Offset(packet) + Length(packet) <= |packet|
  }

  /** The length of the server challenge, as the byte before it announces it. */
  function Length(packet: Bytes): byte
    requires |packet| > 0 && Add(Offset(packet), 255) < |packet|
  {
    Xor(packet[Add(Offset(packet), 255)], 0xea)
  }

  function Body(packet: Bytes): nat
    requires Readable(packet)
  {
    Offset(packet) + Length(packet)
  }

  function Unpack(secret: Secret, client: Key, packet: Bytes): Bytes
    requires Readable(packet)
  {
    var challenge := packet[Offset(packet)..Body(packet)];
    DecryptAll(Start(DeriveKey(secret, client, challenge)), packet[Body(packet)..]).1
  }

  /**
   * How any packet is opened: where the first byte says that the challenge starts, as long as the byte
   * before it says; the key is stirred with that challenge, and what follows it is decrypted.
   */
  lemma PacketIsOpened(secret: Secret, client: Key, packet: Bytes)
    returns (start: byte, length: byte, challenge: Bytes, keys: seq<Key>)
    requires Readable(packet)
    ensures start == (Xor(packet[0], 0xec) as int + 2) % 256
    ensures (start as int + 255) % 256 < |packet| && length == Xor(packet[(start as int + 255) % 256], 0xea)
    ensures (start as int + length) <= |packet| && challenge == packet[start..start as int + length]
    ensures |challenge| == length && |keys| == |challenge| + 1 && keys[0] == client
    ensures forall i: byte :: i < |challenge| ==> Absorbed(secret, challenge, i, keys[i], keys[i + 1])
    ensures Unpack(secret, client, packet) == DecryptAll(Start(keys[|challenge|]), packet[start as int + length..]).1
  {
    hide Start, DecryptAll, Absorbed, KeyRounds, Xor;
    start, length := Offset(packet), Length(packet);
    challenge := packet[Offset(packet)..Body(packet)];
    keys := KeyIsStirred(secret, client, challenge, |challenge|);
  }

  /** The four fixed header bytes announce a challenge of 14 bytes at offset 9. */
  lemma HeaderAnnounces(secret: Secret, client: Key, random: Bytes, data: Bytes)
    requires |random| == HEADER_LENGTH
    ensures var p := Packet(secret, client, random, data);
            && Readable(p) && Offset(p) == 9 && Length(p) == SERVER_CHALLENGE_LENGTH && Body(p) == HEADER_LENGTH
            && p[9..23] == Header(secret, client, random)[9..]
  {
    hide Start, EncryptAll, DeriveKey, Noise;
    var p := Packet(secret, client, random, data);
    assert p[0] == 0xeb && p[8] == Xor(SERVER_CHALLENGE_LENGTH, 0xea);
    FixedBytes();
  }

  lemma FixedBytes()
    ensures Xor(0xeb, 0xec) == 7
    ensures Xor(Xor(SERVER_CHALLENGE_LENGTH, 0xea), 0xea) == SERVER_CHALLENGE_LENGTH
  {
    XorTwice(SERVER_CHALLENGE_LENGTH, 0xea);
    assert XorBits(0xeb / 8, 0xec / 8, 5) == 0;
    assert XorBits(0xeb / 4, 0xec / 4, 6) == 1;
    assert XorBits(0xeb / 2, 0xec / 2, 7) == 3;
  }

  /** Whatever the secret, the challenge, the random header bytes and the data: unpacking gives the data back. */
  lemma PacketRoundTrip(secret: Secret, client: Key, random: Bytes, data: Bytes)
    requires |random| == HEADER_LENGTH
    ensures Readable(Packet(secret, client, random, data))
    ensures Unpack(secret, client, Packet(secret, client, random, data)) == data
  {
    hide Start, DeriveKey, Header, EncryptAll, DecryptAll;
    HeaderAnnounces(secret, client, random, data);
    var header := Header(secret, client, random);
    var s := Start(DeriveKey(secret, client, header[9..]));
    StreamRoundTrip(s, data);
    assert Packet(secret, client, random, data)[23..] == EncryptAll(s, data).1;
  }

  // ---- the two entry points --------------------------------------------------------

  /** The sender's loop, over an int index that is narrowed for the product. */
  method SenderKey(secret: Secret, client: Key, challenge: Bytes) returns (key: Key)
    requires |challenge| < 256
    ensures key == DeriveKey(secret, client, challenge)
  {
    hide Xor, And, Mul, KeyRounds;
    KeyRoundsStep(secret, client, challenge);
    key := client;
    for i := 0 to |challenge|
      invariant key == KeyRounds(secret, client, challenge, i)
    {
      var k := Mul(i % 256, secret[i % SECRET_LENGTH]) % KEY_LENGTH;
      key := key[k := Xor(key[k], And(Xor(key[i % KEY_LENGTH], challenge[i]), 0xFF))];
    }
  }

  /** The receiver's loop, over a byte index. */
  method ReceiverKey(secret: Secret, client: Key, challenge: Bytes) returns (key: Key)
    requires |challenge| < 256
    ensures key == DeriveKey(secret, client, challenge)
  {
    hide Xor, And, Mul, KeyRounds;
    KeyRoundsStep(secret, client, challenge);
    key := client;
    var i: byte := 0;
    while i < |challenge|
      invariant i <= |challenge|
      invariant key == KeyRounds(secret, client, challenge, i)
    {
      var k := Mul(i, secret[i % SECRET_LENGTH]) % KEY_LENGTH;
      key := key[k := Xor(key[k], And(Xor(key[i % KEY_LENGTH], challenge[i]), 0xFF))];
      i := Add(i, 1);
    }
  }

  /** Fills the header with noise, takes the key from it, then fixes four of its bytes. */
  method WriteHeader(secret: Secret, client: Key, payload: array<byte>, random: Bytes) returns (key: Key)
    requires |random| == HEADER_LENGTH <= payload.Length
    modifies payload
    ensures payload[..HEADER_LENGTH] == Header(secret, client, random)
    ensures payload[HEADER_LENGTH..] == old(payload[HEADER_LENGTH..])
    ensures key == DeriveKey(secret, client, payload[9..HEADER_LENGTH])
  {
    hide Xor, DeriveKey;
    for i := 0 to HEADER_LENGTH
      invariant forall k :: 0 <= k < i ==> payload[k] == Noise(secret, client, random)[k]
      invariant payload[HEADER_LENGTH..] == old(payload[HEADER_LENGTH..])
    {
      payload[i] := Xor(Xor(random[i], secret[i % SECRET_LENGTH]), client[i % KEY_LENGTH]);
    }
    var challenge := payload[9..HEADER_LENGTH];
    key := SenderKey(secret, client, challenge);
    payload[0] := 0xeb;
    payload[1] := 0x00;
    payload[2] := 0x00;
    payload[8] := Xor(SERVER_CHALLENGE_LENGTH, 0xea);
    assert challenge == payload[9..HEADER_LENGTH];
  }

  /** Encrypts the caller's buffer in place and returns the packet; `random` is the outcome of the random source. */
  method Encrypt(secret: Secret, client: Key, data: array<byte>, random: Bytes) returns (payload: array<byte>)
    requires |random| == HEADER_LENGTH
    modifies data
    ensures fresh(payload)
    ensures payload[..] == Packet(secret, client, random, old(data[..]))
    ensures payload[HEADER_LENGTH..] == data[..]
  {
    hide Start, EncryptAll, Header, DeriveKey;
    ghost var header := Header(secret, client, random);
    ghost var plain := data[..];
    payload := new byte[HEADER_LENGTH + data.Length];
    var key := WriteHeader(secret, client, payload, random);
    assert payload[9..HEADER_LENGTH] == payload[..HEADER_LENGTH][9..] == header[9..];
    assert key == DeriveKey(secret, client, header[9..]);
    var state := new CipherState(key);
    assert data[0..] == plain;
    state.Encrypt(data, 0);
    assert data[..] == data[0..] == EncryptAll(Start(key), plain).1;
    for i := 0 to data.Length
      invariant payload[..HEADER_LENGTH] == header && data[..] == EncryptAll(Start(key), plain).1
      invariant payload[HEADER_LENGTH..HEADER_LENGTH + i] == data[..i]
    {
      payload[HEADER_LENGTH + i] := data[i];
    }
    assert payload[..] == payload[..HEADER_LENGTH] + payload[HEADER_LENGTH..];
  }

  /** Decrypts the packet's body in place and returns it. */
  method Decrypt(secret: Secret, client: Key, data: array<byte>) returns (plain: Bytes)
    requires Readable(data[..])
    modifies data
    ensures plain == Unpack(secret, client, old(data[..]))
    ensures data[..] == old(data[..Body(data[..])]) + plain
  {
    hide Start, DecryptAll, Xor, DeriveKey;
    ghost var packet := data[..];
    var offset := Add(Xor(data[0], 0xec), 2);
    var length := Xor(data[Add(offset, 255)], 0xea);
    var challenge := data[offset..offset + length];
    var key := ReceiverKey(secret, client, challenge);
    var state := new CipherState(key);
    state.Decrypt(data, offset + length);
    plain := data[offset + length..];
    assert data[..] == data[..offset + length] + plain;
  }
}
