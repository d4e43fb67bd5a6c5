/**
 * The Flow Director hashes.  The signature filter computes a bucket hash and a
 * signature hash in one pass and keeps the terms both keys share only once; the
 * perfect filter computes the bucket hash alone, from the masked input stream.
 * A dword is the sequence of its bits, the least significant first.  The keys are
 * parameters: everything here holds for every key, not only for the driver's two
 * (0x3DAD14E2 and 0x174D3614).
 */
module FlowHash {

  type Dword = x: seq<bool> | |x| == 32 witness seq(32, i => false)

  function Zero(): (r: Dword)
    ensures forall j :: 0 <= j < 32 ==> !r[j]
  {
    seq(32, j => false)
  }

  // ----- the word operations

  function Xor(a: Dword, b: Dword): (r: Dword)
    ensures forall j :: 0 <= j < 32 ==> r[j] == (a[j] != b[j])
  {
    seq(32, j requires 0 <= j < 32 => a[j] != b[j])
  }

  function And(a: Dword, b: Dword): (r: Dword)
    ensures forall j :: 0 <= j < 32 ==> r[j] == (a[j] && b[j])
  {
    seq(32, j requires 0 <= j < 32 => a[j] && b[j])
  }

  function Or(a: Dword, b: Dword): (r: Dword)
    ensures forall j :: 0 <= j < 32 ==> r[j] == (a[j] || b[j])
  {
    seq(32, j requires 0 <= j < 32 => a[j] || b[j])
  }

  function Shr(a: Dword, n: nat): (r: Dword)
    ensures forall j :: 0 <= j < 32 ==> r[j] == (j + n < 32 && a[j + n])
  {
    seq(32, j requires 0 <= j < 32 => j + n < 32 && a[j + n])
  }

  function Shl(a: Dword, n: nat): (r: Dword)
    ensures forall j :: 0 <= j < 32 ==> r[j] == (n <= j && a[j - n])
  {
    seq(32, j requires 0 <= j < 32 => n <= j && a[j - n])
  }

  // the bits lo to hi - 1
  function Ones(lo: nat, hi: nat): (r: Dword)
    ensures forall j :: 0 <= j < 32 ==> r[j] == (lo <= j < hi)
  {
    seq(32, j requires 0 <= j < 32 => lo <= j < hi)
  }

  // network to host order on a little-endian machine
  function Ntohl(x: Dword): (r: Dword)
    ensures r == x[24..] + x[16..24] + x[8..16] + x[..8]
  {
    Or(Or(Shr(x, 24), And(Shr(x, 8), Ones(8, 16))), Or(And(Shl(x, 8), Ones(16, 24)), Shl(x, 24)))
  }

  // ----- the hash, one bit at a time

  // Bit i of the stream, as bit n of the key sees it: the common dword turned by half a
  // dword, with the flow dword laid over it twice, half a dword apart.  Bit 0 of the key
  // does not see the flow dword.
  predicate Shows(flow: Dword, common: Dword, n: nat, i: nat)
    requires i < 48
  {
    common[if i < 16 then i + 16 else i - 16] != (n != 0 && ((i < 32 && flow[i]) != (16 <= i && flow[i - 16])))
  }

  // Bit j of the hash so far: the parity of what the first n bits of the key select
  // from the window that begins at bit j of the stream.
  predicate Window(key: Dword, flow: Dword, common: Dword, n: nat, j: nat)
    requires n <= 32 && j < 15
  {
    n != 0 && Window(key, flow, common, n - 1, j) != (key[n - 1] && Shows(flow, common, n - 1, j + n - 1))
  }

  predicate HashBit(key: Dword, flow: Dword, common: Dword, j: nat)
    requires j < 15
  {
    Window(key, flow, common, 32, j)
  }

  // The hash is linear: the hash of a difference is the difference of the hashes.
  lemma {:induction false} WindowLinear(key: Dword, f: Dword, c: Dword, f': Dword, c': Dword, n: nat, j: nat)
    requires n <= 32 && j < 15
    ensures Window(key, Xor(f, f'), Xor(c, c'), n, j) == (Window(key, f, c, n, j) != Window(key, f', c', n, j))
  {
    if n != 0 {
      WindowLinear(key, f, c, f', c', n - 1, j);
    }
  }

  // Two flows fall into the same bucket exactly when their difference hashes to zero.
  lemma Collide(key: Dword, f: Dword, c: Dword, f': Dword, c': Dword)
    ensures (forall j :: 0 <= j < 15 ==> HashBit(key, f, c, j) == HashBit(key, f', c', j)) <==>
            (forall j :: 0 <= j < 15 ==> !HashBit(key, Xor(f, f'), Xor(c, c'), j))
  {
    forall j | 0 <= j < 15
      ensures HashBit(key, Xor(f, f'), Xor(c, c'), j) == (HashBit(key, f, c, j) != HashBit(key, f', c', j))
    {
      WindowLinear(key, f, c, f', c', 32, j);
    }
  }

  // ----- the hash, one input bit at a time

  function Unit(b: nat): Dword { Ones(b, b + 1) }

  // The place in the key that decides whether bit b of a common dword turns bit j of
  // the hash: b + 16 - j, modulo 32, as if the key were repeated dword after dword.
  function Place(b: nat, j: nat): (p: nat)
    requires b < 32 && j < 15
    ensures p < 32 && p == (b + 16 - j) % 32
  {
    if b + 16 - j < 32 then b + 16 - j else b - 16 - j
  }

  predicate CommonTurns(key: Dword, b: nat, j: nat)
    requires b < 32 && j < 15
  {
    key[Place(b, j)]
  }

  // Bit b of the flow dword: two places, half a dword apart, cut off at both ends of
  // the key.
  predicate FlowTurns(key: Dword, b: nat, j: nat)
    requires b < 32 && j < 15
  {
    (j < b && key[b - j]) != (b + 16 - j < 32 && key[b + 16 - j])
  }

  lemma {:induction false} CommonUnit(key: Dword, b: nat, n: nat, j: nat)
    requires b < 32 && n <= 32 && j < 15
    ensures Window(key, Zero(), Unit(b), n, j) == (Place(b, j) < n && CommonTurns(key, b, j))
  {
    if n != 0 { CommonUnit(key, b, n - 1, j); }
  }

  lemma {:induction false} FlowUnit(key: Dword, b: nat, n: nat, j: nat)
    requires b < 32 && n <= 32 && j < 15
    ensures Window(key, Unit(b), Zero(), n, j) == ((j < b < j + n && key[b - j]) !=
                                                   (b + 16 - j < n && key[b + 16 - j]))
  {
    if n != 0 { FlowUnit(key, b, n - 1, j); }
  }

  // The parity of what the first b bits of a dword turn.
  predicate CommonSum(key: Dword, d: Dword, b: nat, j: nat)
    requires b <= 32 && j < 15
  {
    b != 0 && CommonSum(key, d, b - 1, j) != (d[b - 1] && CommonTurns(key, b - 1, j))
  }

  predicate FlowSum(key: Dword, d: Dword, b: nat, j: nat)
    requires b <= 32 && j < 15
  {
    b != 0 && FlowSum(key, d, b - 1, j) != (d[b - 1] && FlowTurns(key, b - 1, j))
  }

  // The lowest b bits of a dword.
  function Cut(d: Dword, b: nat): Dword { And(d, Ones(0, b)) }

  lemma CutBit(d: Dword, b: nat)
    requires 0 < b <= 32
    ensures Cut(d, b) == Xor(Cut(d, b - 1), if d[b - 1] then Unit(b - 1) else Zero())
  {
  }

  lemma {:induction false} NoWindow(key: Dword, n: nat, j: nat)
    requires n <= 32 && j < 15
    ensures !Window(key, Zero(), Zero(), n, j)
  {
    if n != 0 { NoWindow(key, n - 1, j); }
  }

  lemma {:induction false} CommonCut(key: Dword, d: Dword, b: nat, j: nat)
    requires b <= 32 && j < 15
    ensures HashBit(key, Zero(), Cut(d, b), j) == CommonSum(key, d, b, j)
  {
    NoWindow(key, 32, j);
    if b == 0 {
      assert Cut(d, 0) == Zero();
    } else {
      var bit := if d[b - 1] then Unit(b - 1) else Zero();
      CommonCut(key, d, b - 1, j);
      CutBit(d, b);
      WindowLinear(key, Zero(), Cut(d, b - 1), Zero(), bit, 32, j);
      assert Xor(Zero(), Zero()) == Zero();
      CommonUnit(key, b - 1, 32, j);
    }
  }

  lemma {:induction false} FlowCut(key: Dword, d: Dword, b: nat, j: nat)
    requires b <= 32 && j < 15
    ensures HashBit(key, Cut(d, b), Zero(), j) == FlowSum(key, d, b, j)
  {
    NoWindow(key, 32, j);
    if b == 0 {
      assert Cut(d, 0) == Zero();
    } else {
      var bit := if d[b - 1] then Unit(b - 1) else Zero();
      FlowCut(key, d, b - 1, j);
      CutBit(d, b);
      WindowLinear(key, Cut(d, b - 1), Zero(), bit, Zero(), 32, j);
      assert Xor(Zero(), Zero()) == Zero();
      FlowUnit(key, b - 1, 32, j);
    }
  }

  // The hash is the sum of what its set input bits turn: every bit of the common dword
  // its place in the repeated key, every bit of the flow dword its two places.
  lemma SetBits(key: Dword, flow: Dword, common: Dword, j: nat)
    requires j < 15
    ensures HashBit(key, flow, common, j) == (FlowSum(key, flow, 32, j) != CommonSum(key, common, 32, j))
  {
    assert Cut(flow, 32) == flow && Cut(common, 32) == common;
    FlowCut(key, flow, 32, j);
    CommonCut(key, common, 32, j);
    assert Xor(flow, Zero()) == flow && Xor(Zero(), common) == common;
    WindowLinear(key, flow, Zero(), Zero(), common, 32, j);
  }

  // ----- the two halves of the key

  // Bit m of the dword that bit n of the key selects from, for the lower half of the
  // key and for the upper half.
  predicate LowBit(flow: Dword, common: Dword, n: nat, m: nat)
    requires m < 32
  {
    common[if m < 16 then m + 16 else m - 16] != (n != 0 && (flow[m] != (16 <= m && flow[m - 16])))
  }

  predicate HighBit(flow: Dword, common: Dword, m: nat)
    requires m < 32
  {
    common[m] != (flow[m] != (m < 16 && flow[m + 16]))
  }

  // The parity of what the first n bits of either half of the key select.
  predicate Parity(key: Dword, flow: Dword, common: Dword, n: nat, j: nat)
    requires n <= 16 && j < 15
  {
    n != 0 &&
    Parity(key, flow, common, n - 1, j) !=
    ((key[n - 1] && LowBit(flow, common, n - 1, j + n - 1)) != (key[n + 15] && HighBit(flow, common, j + n - 1)))
  }

  lemma {:induction false} Halves(key: Dword, flow: Dword, common: Dword, n: nat, j: nat)
    requires n <= 16 && j < 15
    ensures Parity(key, flow, common, n, j) ==
            (Window(key, flow, common, n, j) !=
             (Window(key, flow, common, n + 16, j) != Window(key, flow, common, 16, j)))
  {
    if n != 0 { Halves(key, flow, common, n - 1, j); }
  }

  lemma AllHalves(key: Dword, flow: Dword, common: Dword)
    ensures forall j :: 0 <= j < 15 ==> Parity(key, flow, common, 16, j) == HashBit(key, flow, common, j)
  {
    forall j | 0 <= j < 15
      ensures Parity(key, flow, common, 16, j) == HashBit(key, flow, common, j)
    {
      Halves(key, flow, common, 16, j);
    }
  }

  // The low and the high dword as the driver keeps them while it is at bit n.
  ghost predicate Words(flow: Dword, word: Dword, n: nat, low: Dword, high: Dword) {
    forall m :: 0 <= m < 32 ==> low[m] == LowBit(flow, word, n, m) && high[m] == HighBit(flow, word, m)
  }

  function High(flow: Dword, word: Dword): Dword { Xor(word, Xor(flow, Shr(flow, 16))) }

  function Swapped(word: Dword): Dword { Or(Shr(word, 16), Shl(word, 16)) }

  lemma FirstWords(flow: Dword, word: Dword)
    ensures Words(flow, word, 0, Swapped(word), High(flow, word))
  {
  }

  lemma LaterWords(flow: Dword, word: Dword, low: Dword, high: Dword, n: nat)
    requires Words(flow, word, 0, low, high) && n > 0
    ensures Words(flow, word, n, Xor(low, Xor(flow, Shl(flow, 16))), high)
  {
  }

  // ----- both hashes at once

  // What the sums of the combined computation stand for after n iterations.
  ghost predicate Stand(bucketKey: Dword, sigKey: Dword, flow: Dword, word: Dword, n: nat,
                        common: Dword, bucket: Dword, signature: Dword)
    requires n <= 16
  {
    forall j :: 0 <= j < 15 ==>
      && (bucket[j] != common[j]) == Parity(bucketKey, flow, word, n, j)
      && (signature[j + 16] != common[j]) == Parity(sigKey, flow, word, n, j)
  }

  // One half of an iteration, for the dword x and bit k of both keys.
  method Half(bucketKey: Dword, sigKey: Dword, k: nat, n: nat, x: Dword, common: Dword, bucket: Dword, signature: Dword)
    returns (common': Dword, bucket': Dword, signature': Dword)
    requires n < 16 && k < 32
    ensures forall j :: 0 <= j < 15 ==>
      && (bucket'[j] != common'[j]) == ((bucket[j] != common[j]) != (bucketKey[k] && x[j + n]))
      && (signature'[j + 16] != common'[j]) == ((signature[j + 16] != common[j]) != (sigKey[k] && x[j + n]))
  {
    common', bucket', signature' := common, bucket, signature;
    if And(bucketKey, sigKey)[k] {
      common' := Xor(common, Shr(x, n));
    } else if bucketKey[k] {
      bucket' := Xor(bucket, Shr(x, n));
    } else if sigKey[k] {
      signature' := Xor(signature, Shl(x, 16 - n));
    }
  }

  method Iteration(bucketKey: Dword, sigKey: Dword, ghost flow: Dword, ghost word: Dword, n: nat,
                   low: Dword, high: Dword, common: Dword, bucket: Dword, signature: Dword)
    returns (common': Dword, bucket': Dword, signature': Dword)
    requires n < 16 && Stand(bucketKey, sigKey, flow, word, n, common, bucket, signature)
    requires Words(flow, word, n, low, high)
    ensures Stand(bucketKey, sigKey, flow, word, n + 1, common', bucket', signature')
  {
    common', bucket', signature' := Half(bucketKey, sigKey, n, n, low, common, bucket, signature);
    common', bucket', signature' := Half(bucketKey, sigKey, n + 16, n, high, common', bucket', signature');
  }

  // The sixteen iterations, unrolled in the driver.
  method Iterate(bucketKey: Dword, sigKey: Dword, flow: Dword, word: Dword)
    returns (common: Dword, bucket: Dword, signature: Dword)
    ensures Stand(bucketKey, sigKey, flow, word, 16, common, bucket, signature)
  {
    var high, low := High(flow, word), Swapped(word);
    FirstWords(flow, word);
    common, bucket, signature := Iteration(bucketKey, sigKey, flow, word, 0, low, high, Zero(), Zero(), Zero());
    ghost var low0 := low;
    low := Xor(low, Xor(flow, Shl(flow, 16)));
    for n := 1 to 16
      invariant Stand(bucketKey, sigKey, flow, word, n, common, bucket, signature)
    {
      LaterWords(flow, word, low0, high, n);
      common, bucket, signature :=
        Iteration(bucketKey, sigKey, flow, word, n, low, high, common, bucket, signature);
    }
  }

  // For every pair of keys and every input the combined computation returns the
  // two separate hashes side by side, and nothing else.
  method SignatureHash(bucketKey: Dword, sigKey: Dword, input: Dword, commonDword: Dword) returns (h: Dword)
    ensures forall j :: 0 <= j < 15 ==> h[j] == HashBit(bucketKey, Ntohl(input), Ntohl(commonDword), j)
    ensures forall j :: 0 <= j < 15 ==> h[j + 16] == HashBit(sigKey, Ntohl(input), Ntohl(commonDword), j)
    ensures !h[15] && !h[31]
  {
    var common, bucket, signature := Iterate(bucketKey, sigKey, Ntohl(input), Ntohl(commonDword));
    AllHalves(bucketKey, Ntohl(input), Ntohl(commonDword));
    AllHalves(sigKey, Ntohl(input), Ntohl(commonDword));
    bucket := And(Xor(bucket, common), Ones(0, 15));
    signature := And(Xor(signature, Shl(common, 16)), Ones(16, 31));
    h := Xor(signature, bucket);
  }

  // ----- the perfect filter

  const STREAM := 11

  // The masked stream, and the exclusive or of its dwords i to STREAM - 1.
  function Masked(s: seq<Dword>, mask: seq<Dword>): (r: seq<Dword>)
    requires |s| == |mask| == STREAM
    ensures |r| == STREAM
  {
    seq(STREAM, i requires 0 <= i < STREAM => And(s[i], mask[i]))
  }

  function Folded(s: seq<Dword>, i: nat): Dword
    requires |s| == STREAM && i <= STREAM
    decreases STREAM - i
  {
    if i == STREAM then Zero() else Xor(s[i], Folded(s, i + 1))
  }

  // Bit j of the hash of a stream: the parity of what its set bits turn, those of dwords
  // i to STREAM - 1 through the repeated key and those of dword 0 as the flow dword.
  predicate RestSum(key: Dword, s: seq<Dword>, i: nat, j: nat)
    requires |s| == STREAM && i <= STREAM && j < 15
    decreases STREAM - i
  {
    i != STREAM && CommonSum(key, Ntohl(s[i]), 32, j) != RestSum(key, s, i + 1, j)
  }

  predicate StreamBit(key: Dword, s: seq<Dword>, j: nat)
    requires |s| == STREAM && j < 15
  {
    FlowSum(key, Ntohl(s[0]), 32, j) != RestSum(key, s, 1, j)
  }

  lemma {:induction false} CommonSumLinear(key: Dword, d: Dword, e: Dword, b: nat, j: nat)
    requires b <= 32 && j < 15
    ensures CommonSum(key, Xor(d, e), b, j) == (CommonSum(key, d, b, j) != CommonSum(key, e, b, j))
  {
    if b != 0 { CommonSumLinear(key, d, e, b - 1, j); }
  }

  lemma {:induction false} NoCommon(key: Dword, d: Dword, b: nat, j: nat)
    requires b <= 32 && j < 15 && forall k :: 0 <= k < 32 ==> !d[k]
    ensures !CommonSum(key, d, b, j)
  {
    if b != 0 { NoCommon(key, d, b - 1, j); }
  }

  lemma NtohlXor(a: Dword, b: Dword)
    ensures Ntohl(Xor(a, b)) == Xor(Ntohl(a), Ntohl(b))
  {
  }

  // The other dwords may be folded into one: each bit of each of them meets the key at
  // its own place modulo 32.
  lemma {:induction false} FoldedSum(key: Dword, s: seq<Dword>, i: nat, j: nat)
    requires |s| == STREAM && i <= STREAM && j < 15
    ensures CommonSum(key, Ntohl(Folded(s, i)), 32, j) == RestSum(key, s, i, j)
    decreases STREAM - i
  {
    if i == STREAM {
      NoCommon(key, Ntohl(Zero()), 32, j);
    } else {
      FoldedSum(key, s, i + 1, j);
      NtohlXor(s[i], Folded(s, i + 1));
      CommonSumLinear(key, Ntohl(s[i]), Ntohl(Folded(s, i + 1)), 32, j);
    }
  }

  lemma StreamHash(key: Dword, s: seq<Dword>)
    requires |s| == STREAM
    ensures forall j :: 0 <= j < 15 ==> StreamBit(key, s, j) == HashBit(key, Ntohl(s[0]), Ntohl(Folded(s, 1)), j)
  {
    forall j | 0 <= j < 15
      ensures StreamBit(key, s, j) == HashBit(key, Ntohl(s[0]), Ntohl(Folded(s, 1)), j)
    {
      SetBits(key, Ntohl(s[0]), Ntohl(Folded(s, 1)), j);
      FoldedSum(key, s, 1, j);
    }
  }

  // The stream with its last half dword replaced by the hash of the stream.
  ghost predicate Stamped(key: Dword, s: seq<Dword>, r: seq<Dword>)
    requires |s| == |r| == STREAM
  {
    && (forall i :: 0 <= i < STREAM - 1 ==> r[i] == s[i])
    && r[10][..16] == s[10][..16]
    && (forall j :: 0 <= j < 13 ==> r[10][j + 16] == StreamBit(key, s, j))
    && !r[10][29] && !r[10][30] && !r[10][31]
  }

  method BucketIteration(key: Dword, ghost flow: Dword, ghost word: Dword, n: nat, low: Dword, high: Dword,
                         bucket: Dword)
    returns (bucket': Dword)
    requires n < 16
    requires forall j :: 0 <= j < 15 ==> bucket[j] == Parity(key, flow, word, n, j)
    requires Words(flow, word, n, low, high)
    ensures forall j :: 0 <= j < 15 ==> bucket'[j] == Parity(key, flow, word, n + 1, j)
  {
    bucket' := bucket;
    if key[n] { bucket' := Xor(bucket', Shr(low, n)); }
    if key[n + 16] { bucket' := Xor(bucket', Shr(high, n)); }
  }

  method BucketHash(key: Dword, flow: Dword, word: Dword) returns (bucket: Dword)
    ensures forall j :: 0 <= j < 15 ==> bucket[j] == HashBit(key, flow, word, j)
  {
    var high, low := High(flow, word), Swapped(word);
    FirstWords(flow, word);
    bucket := BucketIteration(key, flow, word, 0, low, high, Zero());
    ghost var low0 := low;
    low := Xor(low, Xor(flow, Shl(flow, 16)));
    for n := 1 to 16
      invariant forall j :: 0 <= j < 15 ==> bucket[j] == Parity(key, flow, word, n, j)
    {
      LaterWords(flow, word, low0, high, n);
      bucket := BucketIteration(key, flow, word, n, low, high, bucket);
    }
    AllHalves(key, flow, word);
  }

  // The exclusive or of dwords 1 to 10, one expression in the driver.
  method Fold(s: array<Dword>) returns (x: Dword)
    requires s.Length == STREAM
    ensures x == Folded(s[..], 1)
  {
    x := Zero();
    var i := STREAM;
    while i > 1
      invariant 1 <= i <= STREAM && x == Folded(s[..], i)
    {
      i := i - 1;
      x := Xor(s[i], x);
    }
  }

  // Masks the stream in place and stores the hash of what is left, cut to 13
  // bits, in the upper half of its last dword.
  method PerfectHash(key: Dword, input: array<Dword>, mask: array<Dword>)
    requires input.Length == mask.Length == STREAM
    modifies input
    ensures Stamped(key, Masked(old(input[..]), old(mask[..])), input[..])
  {
    for i := 0 to STREAM
      invariant forall k :: 0 <= k < i ==> input[k] == And(old(input[k]), old(mask[k]))
      invariant forall k :: i <= k < STREAM ==> input[k] == old(input[k]) && mask[k] == old(mask[k])
    {
      input[i] := And(input[i], mask[i]);
    }
    assert input[..] == Masked(old(input[..]), old(mask[..]));
    StreamHash(key, input[..]);
    var word := Fold(input);
    var bucket := BucketHash(key, Ntohl(input[0]), Ntohl(word));
    input[10] := Or(And(input[10], Ones(0, 16)), Shl(And(bucket, Ones(0, 13)), 16));
  }

  // Both filters on one flow: the signature computation, given the first dword
  // and the exclusive or of the others, and the perfect one agree on the 13 bits
  // that are stored.
  method BothHashes(bucketKey: Dword, sigKey: Dword, input: array<Dword>, mask: array<Dword>) returns (h: Dword)
    requires input.Length == mask.Length == STREAM
    modifies input
    ensures var m := Masked(old(input[..]), old(mask[..]));
            && (forall j :: 0 <= j < 15 ==> h[j + 16] == StreamBit(sigKey, m, j))
            && Stamped(bucketKey, m, input[..])
    ensures forall j :: 0 <= j < 13 ==> input[10][j + 16] == h[j]
  {
    var m := Masked(input[..], mask[..]);
    h := SignatureHash(bucketKey, sigKey, m[0], Folded(m, 1));
    StreamHash(bucketKey, m);
    StreamHash(sigKey, m);
    PerfectHash(bucketKey, input, mask);
    assert input[..][10] == input[10];
  }

  lemma SameStamp(key: Dword, s: seq<Dword>, r: seq<Dword>, r': seq<Dword>)
    requires |s| == |r| == |r'| == STREAM && Stamped(key, s, r) && Stamped(key, s, r')
    ensures r == r'
  {
    forall j | 0 <= j < 32
      ensures r[10][j] == r'[10][j]
    {
      if j < 16 {
        assert r[10][..16][j] == r'[10][..16][j];
      } else if j < 29 {
        var i := j - 16;
        assert r[10][i + 16] == StreamBit(key, s, i) == r'[10][i + 16];
      }
    }
    assert r[10] == r'[10];
  }

  // With a mask that hides the hash field, hashing a stream that already carries
  // its hash changes nothing.
  lemma HashedOnce(key: Dword, s: seq<Dword>, mask: seq<Dword>, once: seq<Dword>, twice: seq<Dword>)
    requires |s| == |mask| == |once| == |twice| == STREAM
    requires forall j :: 16 <= j < 32 ==> !mask[10][j]
    requires Stamped(key, Masked(s, mask), once) && Stamped(key, Masked(once, mask), twice)
    ensures twice == once
  {
    forall i | 0 <= i < STREAM
      ensures And(once[i], mask[i]) == And(s[i], mask[i])
    {
      if i == 10 {
        assert forall j :: 0 <= j < 16 ==> once[10][j] == once[10][..16][j];
      }
    }
    assert Masked(once, mask) == Masked(s, mask);
    SameStamp(key, Masked(s, mask), once, twice);
  }
}
