/** The tamper-evident hash chain of `_vendor/ooptdd/domain/model.py`. */
module Chain {
  import opened Common

  type Byte = x: int | 0 <= x < 256

  /**
    How a chain is signed: the hash function, the first key in its encoding, and whether the key moves on with each
    record.
  */
  datatype Ring = Ring(sha: seq<Byte> -> seq<Byte>, key: seq<Byte>, evolve: bool)

  function HexDigit(n: int): Byte
    requires 0 <= n < 16
  {
    if n < 10 then 48 + n else 87 + n
  }

  /** `hexdigest`, in its encoding. */
  function Hex(digest: seq<Byte>): seq<Byte> {
    if digest == [] then [] else [HexDigit(digest[0] / 16), HexDigit(digest[0] % 16)] + Hex(digest[1..])
  }

  function WithoutZeros(bytes: seq<Byte>): seq<Byte> {
    if bytes != [] && bytes[|bytes| - 1] == 0 then WithoutZeros(bytes[..|bytes| - 1]) else bytes
  }

  /**
    What HMAC makes of a key (section 2 of RFC 2104): one longer than a block of 64 bytes is hashed first, and zero
    bytes fill up the block. Two keys fill up to one block if they differ in zero bytes at the end only.
  */
  function Block(ring: Ring, key: seq<Byte>): seq<Byte> {
    WithoutZeros(if |key| > 64 then ring.sha(key) else key)
  }

  /**
    A message authentication code. It is symbolic: equal codes come from equal key blocks, contents and previous codes,
    and a code is never the empty text. The signed bytes are the canonical text, which ends in a brace, followed by the
    hexadecimal previous code, so they determine both.
  */
  datatype Mac = Empty | Hmac(block: seq<Byte>, content: string, prev: Mac)

  /** A record: the canonical text of all other fields, and the two chain fields, which may be missing. */
  datatype Record = Record(content: string, prevSig: Option<Mac>, sigChain: Option<Mac>)

  datatype Reason = PrevLinkMismatch | MacMismatch

  datatype Verdict = Intact | BrokenAt(index: nat, reason: Reason)

  /** `_evolve`. */
  function Evolved(ring: Ring, key: seq<Byte>): seq<Byte> {
    Hex(ring.sha(key))
  }

  function KeyAt(ring: Ring, i: nat): seq<Byte> {
    if i == 0 || !ring.evolve then ring.key else Evolved(ring, KeyAt(ring, i - 1))
  }

  /** The block that the code of the i-th record is made with. */
  function BlockAt(ring: Ring, i: nat): seq<Byte> {
    Block(ring, KeyAt(ring, i))
  }

  /** `str(rec.get("sig_chain", ""))`. */
  function SigOf(r: Record): Mac {
    if r.sigChain.Some? then r.sigChain.value else Empty
  }

  function PrevOf(records: seq<Record>, i: nat): Mac
    requires i <= |records|
  {
    if i == 0 then Empty else SigOf(records[i - 1])
  }

  // -------------------------------------------------------------------------
  // signing
  // -------------------------------------------------------------------------

  /** The code of the i-th record of a chain. */
  function MacAt(records: seq<Record>, ring: Ring, i: nat): Mac
    requires i < |records|
  {
    Hmac(BlockAt(ring, i), records[i].content, if i == 0 then Empty else MacAt(records, ring, i - 1))
  }

  function SignedAt(records: seq<Record>, ring: Ring, i: nat): Record
    requires i < |records|
  {
    Record(records[i].content, Some(if i == 0 then Empty else MacAt(records, ring, i - 1)),
      Some(MacAt(records, ring, i)))
  }

  function Signed(records: seq<Record>, ring: Ring): (out: seq<Record>)
    ensures |out| == |records|
  {
    seq(|records|, i requires 0 <= i < |records| => SignedAt(records, ring, i))
  }

  /** `sign_chain`. */
  method SignChain(records: seq<Record>, ring: Ring) returns (out: seq<Record>)
    ensures out == Signed(records, ring)
  {
    out := [];
    var prev, k := Empty, ring.key;
    for i := 0 to |records|
      invariant out == Signed(records, ring)[..i]
      invariant prev == (if i == 0 then Empty else MacAt(records, ring, i - 1))
      invariant k == KeyAt(ring, i)
    {
      var mac := Hmac(Block(ring, k), records[i].content, prev);
      out := out + [Record(records[i].content, Some(prev), Some(mac))];
      prev := mac;
      if ring.evolve { k := Evolved(ring, k); }
    }
  }

  // -------------------------------------------------------------------------
  // verifying
  // -------------------------------------------------------------------------

  predicate LinkOk(records: seq<Record>, i: nat)
    requires i < |records|
  {
    records[i].prevSig == Some(PrevOf(records, i))
  }

  predicate MacOk(records: seq<Record>, ring: Ring, i: nat)
    requires i < |records|
  {
    SigOf(records[i]) == Hmac(BlockAt(ring, i), records[i].content, PrevOf(records, i))
  }

  predicate SoundAt(records: seq<Record>, ring: Ring, i: nat)
    requires i < |records|
  {
    LinkOk(records, i) && MacOk(records, ring, i)
  }

  predicate Accepted(records: seq<Record>, ring: Ring) {
    forall i :: 0 <= i < |records| ==> SoundAt(records, ring, i)
  }

  /** The verdict names the first record that does not fit, and its link before its code. */
  ghost predicate Tells(v: Verdict, records: seq<Record>, ring: Ring) {
    match v
    case Intact => Accepted(records, ring)
    case BrokenAt(n, reason) =>
      && n < |records| && !SoundAt(records, ring, n)
      && (forall i :: 0 <= i < n ==> SoundAt(records, ring, i))
      && (reason == PrevLinkMismatch <==> !LinkOk(records, n))
  }

  /** `verify_chain`. */
  method VerifyChain(records: seq<Record>, ring: Ring) returns (v: Verdict)
    ensures Tells(v, records, ring)
  {
    var prev, k := Empty, ring.key;
    for i := 0 to |records|
      invariant prev == PrevOf(records, i) && k == KeyAt(ring, i)
      invariant forall j :: 0 <= j < i ==> SoundAt(records, ring, j)
    {
      var rec := records[i];
      if rec.prevSig != Some(prev) {
        return BrokenAt(i, PrevLinkMismatch);
      }
      var expected := Hmac(Block(ring, k), rec.content, prev);
      if SigOf(rec) != expected {
        return BrokenAt(i, MacMismatch);
      }
      prev := SigOf(rec);
      if ring.evolve { k := Evolved(ring, k); }
    }
    return Intact;
  }

  // -------------------------------------------------------------------------
  // main results
  // -------------------------------------------------------------------------

  lemma {:induction false} AcceptedMac(records: seq<Record>, ring: Ring, i: nat)
    requires i < |records| && forall j :: 0 <= j <= i ==> SoundAt(records, ring, j)
    ensures SigOf(records[i]) == MacAt(records, ring, i)
  {
    assert SoundAt(records, ring, i);
    if i > 0 { AcceptedMac(records, ring, i - 1); }
  }

  lemma {:induction false} SameContentsSameMac(a: seq<Record>, b: seq<Record>, ring: Ring, i: nat)
    requires i < |a| && i < |b| && forall j :: 0 <= j <= i ==> a[j].content == b[j].content
    ensures MacAt(a, ring, i) == MacAt(b, ring, i)
  {
    if i > 0 { SameContentsSameMac(a, b, ring, i - 1); }
  }

  lemma SoundIsSigned(records: seq<Record>, ring: Ring, i: nat)
    requires i < |records| && forall j :: 0 <= j <= i ==> SoundAt(records, ring, j)
    ensures records[i] == SignedAt(records, ring, i)
  {
    assert SoundAt(records, ring, i);
    AcceptedMac(records, ring, i);
    if i > 0 { AcceptedMac(records, ring, i - 1); }
  }

  lemma SignedIsSound(records: seq<Record>, ring: Ring, i: nat)
    requires i < |records| && records[i] == SignedAt(records, ring, i)
    requires i > 0 ==> records[i - 1] == SignedAt(records, ring, i - 1)
    ensures SoundAt(records, ring, i)
  {
  }

  /** The accepted lists are exactly the signed ones: signing again changes nothing. */
  lemma AcceptedIffSigned(records: seq<Record>, ring: Ring)
    ensures Accepted(records, ring) <==> records == Signed(records, ring)
  {
    var s := Signed(records, ring);
    if Accepted(records, ring) {
      forall i | 0 <= i < |records| ensures records[i] == s[i] { SoundIsSigned(records, ring, i); }
    }
    if records == s {
      assert forall i :: 0 <= i < |records| ==> s[i] == SignedAt(records, ring, i);
      forall i | 0 <= i < |records| ensures SoundAt(records, ring, i) { SignedIsSound(records, ring, i); }
    }
  }

  lemma SignedAtAgain(a: seq<Record>, b: seq<Record>, ring: Ring, i: nat)
    requires i < |a| && i < |b| && forall j :: 0 <= j <= i ==> a[j].content == b[j].content
    ensures SignedAt(a, ring, i) == SignedAt(b, ring, i)
  {
    SameContentsSameMac(a, b, ring, i);
    if i > 0 { SameContentsSameMac(a, b, ring, i - 1); }
  }

  /** Round trip: what was signed is accepted, whatever chain fields the records carried before. */
  lemma SignedIsAccepted(records: seq<Record>, ring: Ring)
    ensures Accepted(Signed(records, ring), ring)
  {
  }

  function Depth(m: Mac): nat {
    match m
    case Empty => 0
    case Hmac(_, _, prev) => Depth(prev) + 1
  }

  lemma {:induction false} DepthIsPlace(records: seq<Record>, ring: Ring, i: nat)
    requires i < |records|
    ensures Depth(MacAt(records, ring, i)) == i + 1
  {
    if i > 0 { DepthIsPlace(records, ring, i - 1); }
  }

  /** Records of a chain taken by their places, in any order and as often as one likes. */
  function Pick(s: seq<Record>, places: seq<nat>): (p: seq<Record>)
    requires forall i :: 0 <= i < |places| ==> places[i] < |s|
    ensures |p| == |places| && forall i :: 0 <= i < |p| ==> p[i] == s[places[i]]
  {
    seq(|places|, i requires 0 <= i < |places| => s[places[i]])
  }

  /**
    Deleting, repeating or reordering records of a signed chain is noticed, with fixed and with evolving keys: a list
    of its records is accepted if and only if it is the first ones, in their order. (Only cutting the end goes
    unnoticed.)
  */
  lemma PickedIsAcceptedIffPrefix(records: seq<Record>, ring: Ring, places: seq<nat>)
    requires forall i :: 0 <= i < |places| ==> places[i] < |records|
    ensures Accepted(Pick(Signed(records, ring), places), ring) <==> forall i :: 0 <= i < |places| ==> places[i] == i
  {
    var s := Signed(records, ring);
    var p := Pick(s, places);
    if Accepted(p, ring) {
      forall i | 0 <= i < |places| ensures places[i] == i {
        PlaceIsKept(records, ring, places, i);
      }
    }
    if forall i :: 0 <= i < |places| ==> places[i] == i {
      SignedIsAccepted(records, ring);
      forall i | 0 <= i < |p| ensures SoundAt(p, ring, i) {
        assert places[i] == i && SoundAt(s, ring, i);
        if i > 0 { assert places[i - 1] == i - 1; }
      }
    }
  }

  lemma {:induction false} PlaceIsKept(records: seq<Record>, ring: Ring, places: seq<nat>, i: nat)
    requires (forall k :: 0 <= k < |places| ==> places[k] < |records|) && i < |places|
    requires Accepted(Pick(Signed(records, ring), places), ring)
    ensures places[i] == i
  {
    var p, n := Pick(Signed(records, ring), places), places[i];
    assert SoundAt(p, ring, i);
    if n > 0 { DepthIsPlace(records, ring, n - 1); }
    if i > 0 {
      PlaceIsKept(records, ring, places, i - 1);
      DepthIsPlace(records, ring, i - 1);
    }
  }

  /** The last code vouches for the whole list: two accepted lists that end in one code are the same list. */
  lemma LastMacDetermines(a: seq<Record>, b: seq<Record>, ring: Ring)
    requires Accepted(a, ring) && Accepted(b, ring) && a != [] && b != []
    requires SigOf(a[|a| - 1]) == SigOf(b[|b| - 1])
    ensures a == b
  {
    var n, m := |a| - 1, |b| - 1;
    AcceptedMac(a, ring, n);
    AcceptedMac(b, ring, m);
    DepthIsPlace(a, ring, n);
    DepthIsPlace(b, ring, m);
    SameMacSameContents(a, b, ring, n);
    forall i | 0 <= i < |a| ensures a[i] == b[i] {
      SignedAtAgain(a, b, ring, i);
      SoundIsSigned(a, ring, i);
      SoundIsSigned(b, ring, i);
    }
  }

  lemma {:induction false} SameMacSameContents(a: seq<Record>, b: seq<Record>, ring: Ring, i: nat)
    requires i < |a| && i < |b| && MacAt(a, ring, i) == MacAt(b, ring, i)
    ensures forall j :: 0 <= j <= i ==> a[j].content == b[j].content
  {
    if i > 0 { SameMacSameContents(a, b, ring, i - 1); }
  }

  /** An edit of one record is found at that record, as a bad code. */
  lemma EditIsFound(records: seq<Record>, ring: Ring, n: nat, content: string, v: Verdict)
    requires Accepted(records, ring) && n < |records| && content != records[n].content
    requires Tells(v, records[n := records[n].(content := content)], ring)
    ensures v == BrokenAt(n, MacMismatch)
  {
    var edited := records[n := records[n].(content := content)];
    assert SoundAt(records, ring, n);
    assert PrevOf(edited, n) == PrevOf(records, n);
    assert LinkOk(edited, n) && !MacOk(edited, ring, n) && !SoundAt(edited, ring, n);
    forall i | 0 <= i < n ensures SoundAt(edited, ring, i) {
      assert SoundAt(records, ring, i) && PrevOf(edited, i) == PrevOf(records, i);
    }
  }

  /** A deletion before the end is found at the place it left, as a bad link. */
  lemma DeletionIsFound(records: seq<Record>, ring: Ring, n: nat, v: Verdict)
    requires Accepted(records, ring) && n + 1 < |records|
    requires Tells(v, records[..n] + records[n + 1..], ring)
    ensures v == BrokenAt(n, PrevLinkMismatch)
  {
    var cut := records[..n] + records[n + 1..];
    assert cut[n] == records[n + 1] && PrevOf(cut, n) == PrevOf(records, n);
    assert SoundAt(records, ring, n) && SoundAt(records, ring, n + 1);
    assert Depth(SigOf(records[n])) == Depth(PrevOf(records, n)) + 1;
    assert !LinkOk(cut, n) && !SoundAt(cut, ring, n);
    forall i | 0 <= i < n ensures SoundAt(cut, ring, i) {
      assert SoundAt(records, ring, i) && PrevOf(cut, i) == PrevOf(records, i) && cut[i] == records[i];
    }
  }

  lemma MacTellsTheBlock(records: seq<Record>, a: Ring, b: Ring, i: nat)
    requires i < |records| && SoundAt(records, a, i)
    ensures SoundAt(records, b, i) <==> BlockAt(a, i) == BlockAt(b, i)
  {
  }

  /**
    What is accepted under one key is accepted under another exactly if HMAC makes the same blocks of both, record by
    record.
  */
  lemma AcceptanceTellsTheKey(records: seq<Record>, a: Ring, b: Ring)
    requires Accepted(records, a)
    ensures Accepted(records, b) <==> forall i :: 0 <= i < |records| ==> BlockAt(a, i) == BlockAt(b, i)
  {
    forall i | 0 <= i < |records| ensures SoundAt(records, b, i) <==> BlockAt(a, i) == BlockAt(b, i) {
      MacTellsTheBlock(records, a, b, i);
    }
  }

  /** So a list does not tell its key: a zero byte at the end of a fixed, short key changes nothing. */
  lemma ZeroAtTheEndIsLost(records: seq<Record>, ring: Ring)
    requires !ring.evolve && |ring.key| < 64
    ensures Accepted(records, ring) <==> Accepted(records, ring.(key := ring.key + [0]))
  {
    var longer := ring.(key := ring.key + [0]);
    assert longer.key[..|longer.key| - 1] == ring.key;
    if Accepted(records, ring) {
      AcceptanceTellsTheKey(records, ring, longer);
    }
    if Accepted(records, longer) {
      AcceptanceTellsTheKey(records, longer, ring);
    }
  }
}
