/**
 * Prediction of the address of the contract the mined transaction creates
 * (`get_contract_address`, src/main.rs:185-198): the RLP encoding of the list
 * [sender, nonce] (Appendix B, Recursive Length Prefix, of the Ethereum Yellow
 * Paper), hashed with Keccak-256, of which the last 20 bytes are the address
 * (section 7, Contract Creation, of the Yellow Paper). Keccak-256 is a
 * parameter: any function from byte strings to 32-byte hashes.
 */
module Rlp {
  import opened Wrappers
  import opened Uint

  type Address = a: seq<Byte> | |a| == 20 witness seq(20, _ => 0)

  function Pow256(k: nat): (r: nat)
    ensures r >= 1
  {
    if k == 0 then 1 else 256 * Pow256(k - 1)
  }

  lemma {:induction false} Pow256Add(a: nat, b: nat)
    ensures Pow256(a + b) == Pow256(a) * Pow256(b)
  {
    if a > 0 {
      Pow256Add(a - 1, b);
      assert Pow256(a + b) == 256 * Pow256(a - 1 + b);
    }
  }

  /** 256^32 is 2^256, computed by repeated squaring. */
  lemma Pow256Of32()
    ensures Pow256(32) == U256_LIMIT
  {
    assert Pow256(2) == 0x1_0000;
    Pow256Add(2, 2);
    assert Pow256(4) == 0x1_0000_0000;
    Pow256Add(4, 4);
    assert Pow256(8) == U64_LIMIT;
    Pow256Add(8, 8);
    assert Pow256(16) == U64_LIMIT * U64_LIMIT;
    Pow256Add(16, 16);
  }

  /** The minimal big-endian bytes of n, as RLP encodes an integer: none for 0, no leading zero byte. */
  function BigEndian(n: nat): (bs: seq<Byte>)
    ensures bs == [] <==> n == 0
    ensures bs != [] ==> bs[0] != 0
  {
    if n == 0 then [] else BigEndian(n / 256) + [n % 256]
  }

  /** The integer a big-endian byte string stands for. */
  function FromBigEndian(bs: seq<Byte>): nat {
    if bs == [] then 0 else FromBigEndian(bs[..|bs| - 1]) * 256 + bs[|bs| - 1]
  }

  /** Reading the minimal bytes back gives the integer. */
  lemma {:induction false} BigEndianRoundTrip(n: nat)
    ensures FromBigEndian(BigEndian(n)) == n
  {
    if n > 0 {
      var bs := BigEndian(n);
      assert bs[..|bs| - 1] == BigEndian(n / 256);
      BigEndianRoundTrip(n / 256);
    }
  }

  /** n needs at most k bytes exactly when n < 256^k. */
  lemma {:induction false} BigEndianLength(n: nat, k: nat)
    ensures |BigEndian(n)| <= k <==> n < Pow256(k)
    decreases n
  {
    if n > 0 && k > 0 {
      BigEndianLength(n / 256, k - 1);
    }
  }

  /** A U256 takes at most 32 bytes. */
  lemma U256Length(n: U256)
    ensures |BigEndian(n)| <= 32
  {
    Pow256Of32();
    BigEndianLength(n, 32);
  }

  /** The bytes RLP encodes a U256 nonce with: its minimal big-endian form, at most 32 bytes. */
  function NonceBytes(nonce: U256): (bs: seq<Byte>)
    ensures |bs| <= 32
  {
    U256Length(nonce);
    BigEndian(nonce)
  }

  /** RLP of a byte string shorter than 56 bytes: a single byte below 0x80 is itself, otherwise 0x80 + length, then the bytes. */
  function EncodeString(bs: seq<Byte>): (out: seq<Byte>)
    requires |bs| <= 55
    ensures |out| == if |bs| == 1 && bs[0] < 0x80 then 1 else |bs| + 1
  {
    if |bs| == 1 && bs[0] < 0x80 then bs else [0x80 + |bs|] + bs
  }

  /** RLP of a list whose encoded items take fewer than 56 bytes: 0xc0 + payload length, then the payload. */
  function EncodeList(payload: seq<Byte>): (out: seq<Byte>)
    requires |payload| <= 55
    ensures |out| == |payload| + 1
  {
    [0xc0 + |payload|] + payload
  }

  /** `RlpStream::new_list(2)` with the sender and the nonce appended (src/main.rs:187-190). */
  function CreateInput(sender: Address, nonce: U256): (out: seq<Byte>)
    ensures 23 <= |out| <= 55
    ensures out[0] == 0xc0 + (|out| - 1)
    ensures out[1] == 0x94 && out[2..22] == sender
    ensures out[22..] == EncodeString(NonceBytes(nonce))
  {
    var es, en := EncodeString(sender), EncodeString(NonceBytes(nonce));
    assert es == [0x94] + sender && |en| <= 33;
    var payload := es + en;
    var out := EncodeList(payload);
    assert out == [0xc0 + |payload|, 0x94] + sender + en;
    out
  }

  /** The nonce item is 0x80 for zero, the byte itself below 0x80, else 0x80 + length then the minimal bytes. */
  lemma NonceEncoding(nonce: U256)
    ensures EncodeString(NonceBytes(nonce)) ==
      if nonce == 0 then [0x80]
      else if nonce < 0x80 then [nonce]
      else [0x80 + |BigEndian(nonce)|] + BigEndian(nonce)
  {
    if 0 < nonce < 256 {
      assert BigEndian(nonce) == BigEndian(0) + [nonce];
    }
  }

  /** RLP decoding of one short byte string at the head of bs: the string and the bytes it used. */
  function DecodeString(bs: seq<Byte>): (r: Option<(seq<Byte>, nat)>)
    ensures r.Some? ==> 0 < r.value.1 <= |bs|
  {
    if bs == [] then None
    else if bs[0] < 0x80 then Some(([bs[0]], 1))
    else if bs[0] <= 0xb7 && bs[0] - 0x80 + 1 <= |bs| then Some((bs[1..bs[0] - 0x80 + 1], bs[0] - 0x80 + 1))
    else None
  }

  lemma DecodeEncodeString(x: seq<Byte>, rest: seq<Byte>)
    requires |x| <= 55
    ensures DecodeString(EncodeString(x) + rest) == Some((x, |EncodeString(x)|))
  {
    var e := EncodeString(x) + rest;
    if |x| == 1 && x[0] < 0x80 {
      assert [e[0]] == x;
    } else {
      assert e[0] == 0x80 + |x|;
      assert e[1..|x| + 1] == x;
    }
  }

  /** RLP decoding of a two-item list [20-byte string, integer]. */
  function DecodeCreateInput(bs: seq<Byte>): Option<(Address, nat)> {
    if bs == [] || bs[0] < 0xc0 || bs[0] > 0xf7 || |bs| != bs[0] - 0xc0 + 1 then None
    else
      var payload := bs[1..];
      match DecodeString(payload)
      case None => None
      case Some((s, used)) =>
        if |s| != 20 then None
        else
          match DecodeString(payload[used..])
          case None => None
          case Some((nb, used2)) =>
            if used + used2 != |payload| then None
            else Some((s, FromBigEndian(nb)))
  }

  /** The encoding determines the sender and the nonce. */
  lemma CreateInputRoundTrip(sender: Address, nonce: U256)
    ensures DecodeCreateInput(CreateInput(sender, nonce)) == Some((sender, nonce))
  {
    var out := CreateInput(sender, nonce);
    var payload := out[1..];
    var es := EncodeString(sender);
    var en := EncodeString(NonceBytes(nonce));
    assert payload == es + en;
    DecodeEncodeString(sender, en);
    assert payload[|es|..] == en + [];
    DecodeEncodeString(NonceBytes(nonce), []);
    BigEndianRoundTrip(nonce);
  }

  /** Distinct (sender, nonce) pairs have distinct encodings. */
  lemma CreateInputInjective(s1: Address, n1: U256, s2: Address, n2: U256)
    requires CreateInput(s1, n1) == CreateInput(s2, n2)
    ensures s1 == s2 && n1 == n2
  {
    CreateInputRoundTrip(s1, n1);
    CreateInputRoundTrip(s2, n2);
  }

  /** `get_contract_address`: the last 20 of the 32 hash bytes of the encoding (src/main.rs:185-198). */
  function ContractAddress(keccak: seq<Byte> -> Hash32, sender: Address, nonce: U256): (a: Address)
    ensures forall i :: 0 <= i < 20 ==> a[i] == keccak(CreateInput(sender, nonce))[12 + i]
  {
    keccak(CreateInput(sender, nonce))[12..]
  }

  /** Two creations share an address only if the truncated hash collides on two different encodings. */
  lemma SharedAddressNeedsCollision(keccak: seq<Byte> -> Hash32, s1: Address, n1: U256, s2: Address, n2: U256)
    requires (s1, n1) != (s2, n2)
    requires ContractAddress(keccak, s1, n1) == ContractAddress(keccak, s2, n2)
    ensures CreateInput(s1, n1) != CreateInput(s2, n2)
    ensures keccak(CreateInput(s1, n1))[12..] == keccak(CreateInput(s2, n2))[12..]
  {
    if CreateInput(s1, n1) == CreateInput(s2, n2) {
      CreateInputInjective(s1, n1, s2, n2);
    }
  }
}
