/**
 The 4+2 erasure code of the audio stream. Encoding multiplies the four data bytes of a column
 by the repository's 2x4 parity matrix; decoding solves for one or two erased data shards.
 The code is shown to be maximum distance separable: any four of the six shards determine the rest.
 */
module ReedSolomon {
  import opened Wrappers
  import opened Bytes
  import opened Gf256

  const DATA_SHARDS := 4
  const FEC_SHARDS := 2
  const TOTAL_SHARDS := DATA_SHARDS + FEC_SHARDS

  type Shard = seq<Byte>

  datatype CodeError = TooFewShards | IncorrectShardSize

  /** The parity matrix. */
  function Coefficient(row: nat, col: nat): Byte
    requires row < FEC_SHARDS && col < DATA_SHARDS
  {
    if row == 0 then
      if col == 0 then 0x77 else if col == 1 then 0x40 else if col == 2 then 0x38 else 0x0e
    else
      if col == 0 then 0xc7 else if col == 1 then 0xa7 else if col == 2 then 0x0d else 0x6c
  }

  // ---------- encoding ----------

  /** The part of a parity byte contributed by the data bytes at and after position `from`. */
  function WeightedSum(row: nat, column: seq<Byte>, from: nat): Byte
    requires row < FEC_SHARDS && |column| == DATA_SHARDS && from <= DATA_SHARDS
    decreases DATA_SHARDS - from
  {
    if from == DATA_SHARDS then ZERO
    else Add(Mul(Coefficient(row, from), column[from]), WeightedSum(row, column, from + 1))
  }

  function ParityByte(row: nat, column: seq<Byte>): Byte
    requires row < FEC_SHARDS && |column| == DATA_SHARDS
  {
    WeightedSum(row, column, 0)
  }

  /** Four data shards of one length. */
  predicate DataShards(data: seq<Shard>, len: nat) {
    |data| == DATA_SHARDS && forall i :: 0 <= i < DATA_SHARDS ==> |data[i]| == len
  }

  function Column(data: seq<Shard>, len: nat, k: nat): (column: seq<Byte>)
    requires DataShards(data, len) && k < len
    ensures |column| == DATA_SHARDS
  {
    seq(DATA_SHARDS, i requires 0 <= i < DATA_SHARDS => data[i][k])
  }

  function Encode(data: seq<Shard>, len: nat, row: nat): (parity: Shard)
    requires DataShards(data, len) && row < FEC_SHARDS
    ensures |parity| == len
  {
    seq(len, k requires 0 <= k < len => ParityByte(row, Column(data, len, k)))
  }

  // ---------- decoding ----------

  type Received = s: seq<Option<Shard>> | |s| == TOTAL_SHARDS
    witness [None, None, None, None, None, None]

  function Here(shard: Option<Shard>): nat {
    if shard.Some? then 1 else 0
  }

  function Count(s: Received): nat {
    Here(s[0]) + Here(s[1]) + Here(s[2]) + Here(s[3]) + Here(s[4]) + Here(s[5])
  }

  predicate SameLength(shards: Received, len: nat) {
    forall i :: 0 <= i < TOTAL_SHARDS && shards[i].Some? ==> |shards[i].value| == len
  }

  /** The first missing data shard at or after `from`, or 4. */
  function FirstMissing(shards: Received, from: nat): (i: nat)
    requires from <= DATA_SHARDS
    ensures from <= i <= DATA_SHARDS
    decreases DATA_SHARDS - from
  {
    if from == DATA_SHARDS || shards[from].None? then from else FirstMissing(shards, from + 1)
  }

  /** Data shard i is the first missing one and j the second (4 if none), and enough parity is left. */
  predicate Erased(shards: Received, i: nat, j: nat) {
    && i < j <= DATA_SHARDS
    && shards[i].None?
    && (j < DATA_SHARDS ==> shards[j].None?)
    && (forall k :: 0 <= k < DATA_SHARDS && k != i && k != j ==> shards[k].Some?)
    && (shards[4].Some? || shards[5].Some?)
    && (j < DATA_SHARDS ==> shards[4].Some? && shards[5].Some?)
  }

  lemma ErasedIsFound(shards: Received)
    requires Count(shards) >= DATA_SHARDS
    requires FirstMissing(shards, 0) < DATA_SHARDS
    ensures var i := FirstMissing(shards, 0); Erased(shards, i, FirstMissing(shards, i + 1))
  {
  }

  lemma NothingErased(shards: Received)
    requires FirstMissing(shards, 0) == DATA_SHARDS
    ensures forall k :: 0 <= k < DATA_SHARDS ==> shards[k].Some?
  {
  }

  /** Column k of the received data, with zeros where a shard is missing. */
  function KnownColumn(shards: Received, len: nat, k: nat): (column: seq<Byte>)
    requires SameLength(shards, len) && k < len
    ensures |column| == DATA_SHARDS
  {
    seq(DATA_SHARDS, i requires 0 <= i < DATA_SHARDS =>
      if shards[i].Some? then shards[i].value[k] else ZERO)
  }

  /** What the missing data bytes of column k contribute to a received parity byte. */
  function Syndrome(shards: Received, len: nat, row: nat, k: nat): Byte
    requires SameLength(shards, len) && k < len
    requires row < FEC_SHARDS && shards[DATA_SHARDS + row].Some?
  {
    Add(ParityByte(row, KnownColumn(shards, len, k)), shards[DATA_SHARDS + row].value[k])
  }

  /** The 2x2 minor of the parity matrix for two columns. */
  function Minor(i: nat, j: nat): Byte
    requires i < DATA_SHARDS && j < DATA_SHARDS
  {
    Add(Mul(Coefficient(1, j), Coefficient(0, i)), Mul(Coefficient(0, j), Coefficient(1, i)))
  }

  /** The reciprocals of the matrix entries and of the minors. */
  function Reciprocal(a: Byte): Byte {
    if a == 0x0d then 0xaa
    else if a == 0x0e then 0x5d
    else if a == 0x38 then 0x50
    else if a == 0x40 then 0x36
    else if a == 0x4a then 0x2b
    else if a == 0x6c then 0x20
    else if a == 0x76 then 0xda
    else if a == 0x77 then 0x79
    else if a == 0x8c then 0x53
    else if a == 0x8e then 0x02
    else if a == 0xa6 then 0x46
    else if a == 0xa7 then 0x05
    else if a == 0xc7 then 0x9e
    else if a == 0xcd then 0x7d
    else 0
  }

  /** One unknown byte with coefficient `row`, `col` and the given syndrome. */
  function SolveOne(row: nat, col: nat, syndrome: Byte): Byte
    requires row < FEC_SHARDS && col < DATA_SHARDS
  {
    Mul(Reciprocal(Coefficient(row, col)), syndrome)
  }

  /** Cramer's rule for two unknown bytes: the first one at i, the second at j. */
  function SolveFirst(i: nat, j: nat, s0: Byte, s1: Byte): Byte
    requires i < j < DATA_SHARDS
  {
    Mul(Reciprocal(Minor(i, j)), Add(Mul(Coefficient(1, j), s0), Mul(Coefficient(0, j), s1)))
  }

  function SolveSecond(i: nat, j: nat, s0: Byte, s1: Byte): Byte
    requires i < j < DATA_SHARDS
  {
    Mul(Reciprocal(Minor(i, j)), Add(Mul(Coefficient(1, i), s0), Mul(Coefficient(0, i), s1)))
  }

  /** Byte k of the missing data shard `at`. */
  function RecoverByte(shards: Received, len: nat, i: nat, j: nat, at: nat, k: nat): Byte
    requires SameLength(shards, len) && k < len && Erased(shards, i, j)
  {
    if j == DATA_SHARDS then
      var row := if shards[DATA_SHARDS].Some? then 0 else 1;
      SolveOne(row, i, Syndrome(shards, len, row, k))
    else if at == i then
      SolveFirst(i, j, Syndrome(shards, len, 0, k), Syndrome(shards, len, 1, k))
    else
      SolveSecond(i, j, Syndrome(shards, len, 0, k), Syndrome(shards, len, 1, k))
  }

  /** Data shard `at`, computed byte by byte if it was not received. */
  function RestoredShard(shards: Received, len: nat, i: nat, j: nat, at: nat): (shard: Shard)
    requires SameLength(shards, len) && Erased(shards, i, j) && at < DATA_SHARDS
    ensures |shard| == len
  {
    if shards[at].Some? then shards[at].value
    else seq(len, k requires 0 <= k < len => RecoverByte(shards, len, i, j, at, k))
  }

  function LengthOf(shards: Received): nat {
    if shards[0].Some? then |shards[0].value|
    else if shards[1].Some? then |shards[1].value|
    else if shards[2].Some? then |shards[2].value|
    else if shards[3].Some? then |shards[3].value|
    else if shards[4].Some? then |shards[4].value|
    else if shards[5].Some? then |shards[5].value|
    else 0
  }

  /** Fills in the missing data shards from any four shards of equal length. */
  function ReconstructData(shards: Received): (r: Result<seq<Shard>, CodeError>)
    ensures r.Success? ==> DataShards(r.value, LengthOf(shards))
  {
    var len := LengthOf(shards);
    if Count(shards) < DATA_SHARDS then Failure(TooFewShards)
    else if !SameLength(shards, len) then Failure(IncorrectShardSize)
    else
      var i := FirstMissing(shards, 0);
      if i == DATA_SHARDS then
        NothingErased(shards);
        Success(seq(DATA_SHARDS, at requires 0 <= at < DATA_SHARDS => shards[at].value))
      else
        ErasedIsFound(shards);
        var j := FirstMissing(shards, i + 1);
        Success(seq(DATA_SHARDS, at requires 0 <= at < DATA_SHARDS => RestoredShard(shards, len, i, j, at)))
  }

  // ---------- the matrix is invertible on every pair of columns ----------

  // Products of matrix entries, for the minors below.

  lemma Producta7By77()
    ensures Mul(0xa7, 0x77) == 0x1b
  {
  }

  lemma Product40Byc7()
    ensures Mul(0x40, 0xc7) == 0x97
  {
  }

  lemma Product0dBy77()
    ensures Mul(0x0d, 0x77) == 0x29
  {
  }

  lemma Product38Byc7()
    ensures Mul(0x38, 0xc7) == 0x5f
  {
  }

  lemma Product6cBy77()
    ensures Mul(0x6c, 0x77) == 0x94
  {
  }

  lemma Product0eByc7()
    ensures Mul(0x0e, 0xc7) == 0xde
  {
  }

  lemma Product0dBy40()
    ensures Mul(0x0d, 0x40) == 0x67
  {
  }

  lemma Product38Bya7()
    ensures Mul(0x38, 0xa7) == 0xaa
  {
  }

  lemma Product6cBy40()
    ensures Mul(0x6c, 0x40) == 0x02
  {
  }

  lemma Product0eBya7()
    ensures Mul(0x0e, 0xa7) == 0xa4
  {
  }

  lemma Product6cBy38()
    ensures Mul(0x6c, 0x38) == 0xc8
  {
  }

  lemma Product0eBy0d()
    ensures Mul(0x0e, 0x0d) == 0x46
  {
  }

  lemma Minor01()
    ensures Minor(0, 1) == 0x8c
  {
    hide Mul;
    Producta7By77();
    Product40Byc7();
  }

  lemma Minor02()
    ensures Minor(0, 2) == 0x76
  {
    hide Mul;
    Product0dBy77();
    Product38Byc7();
  }

  lemma Minor03()
    ensures Minor(0, 3) == 0x4a
  {
    hide Mul;
    Product6cBy77();
    Product0eByc7();
  }

  lemma Minor12()
    ensures Minor(1, 2) == 0xcd
  {
    hide Mul;
    Product0dBy40();
    Product38Bya7();
  }

  lemma Minor13()
    ensures Minor(1, 3) == 0xa6
  {
    hide Mul;
    Product6cBy40();
    Product0eBya7();
  }

  lemma Minor23()
    ensures Minor(2, 3) == 0x8e
  {
    hide Mul;
    Product6cBy38();
    Product0eBy0d();
  }

  lemma Reciprocal77()
    ensures Mul(0x79, 0x77) == ONE
  {
  }

  lemma Reciprocal40()
    ensures Mul(0x36, 0x40) == ONE
  {
  }

  lemma Reciprocal38()
    ensures Mul(0x50, 0x38) == ONE
  {
  }

  lemma Reciprocal0e()
    ensures Mul(0x5d, 0x0e) == ONE
  {
  }

  lemma Reciprocalc7()
    ensures Mul(0x9e, 0xc7) == ONE
  {
  }

  lemma Reciprocala7()
    ensures Mul(0x05, 0xa7) == ONE
  {
  }

  lemma Reciprocal0d()
    ensures Mul(0xaa, 0x0d) == ONE
  {
  }

  lemma Reciprocal6c()
    ensures Mul(0x20, 0x6c) == ONE
  {
  }

  lemma Reciprocal8c()
    ensures Mul(0x53, 0x8c) == ONE
  {
  }

  lemma Reciprocal76()
    ensures Mul(0xda, 0x76) == ONE
  {
  }

  lemma Reciprocal4a()
    ensures Mul(0x2b, 0x4a) == ONE
  {
  }

  lemma Reciprocalcd()
    ensures Mul(0x7d, 0xcd) == ONE
  {
  }

  lemma Reciprocala6()
    ensures Mul(0x46, 0xa6) == ONE
  {
  }

  lemma Reciprocal8e()
    ensures Mul(0x02, 0x8e) == ONE
  {
  }

  lemma CoefficientInvertible(row: nat, col: nat)
    requires row < FEC_SHARDS && col < DATA_SHARDS
    ensures Mul(Reciprocal(Coefficient(row, col)), Coefficient(row, col)) == ONE
  {
    hide Mul;
    Reciprocal77();
    Reciprocal40();
    Reciprocal38();
    Reciprocal0e();
    Reciprocalc7();
    Reciprocala7();
    Reciprocal0d();
    Reciprocal6c();
  }

  lemma MinorInvertible(i: nat, j: nat)
    requires i < j < DATA_SHARDS
    ensures Mul(Reciprocal(Minor(i, j)), Minor(i, j)) == ONE
  {
    hide Mul, Minor, Coefficient;
    Minor01();
    Reciprocal8c();
    Minor02();
    Reciprocal76();
    Minor03();
    Reciprocal4a();
    Minor12();
    Reciprocalcd();
    Minor13();
    Reciprocala6();
    Minor23();
    Reciprocal8e();
  }

  // ---------- solving undoes encoding, and encoding undoes solving ----------

  lemma DivideOut(r: Byte, c: Byte, x: Byte)
    requires Mul(r, c) == ONE
    ensures Mul(r, Mul(c, x)) == x
    ensures Mul(c, Mul(r, x)) == x
  {
    hide Mul;
    MulAssociates(r, c, x);
    MulAssociates(c, r, x);
    MulCommutes(c, r);
    OneMul(x);
  }

  lemma SolveOneSolves(row: nat, col: nat, x: Byte)
    requires row < FEC_SHARDS && col < DATA_SHARDS
    ensures SolveOne(row, col, Mul(Coefficient(row, col), x)) == x
    ensures Mul(Coefficient(row, col), SolveOne(row, col, x)) == x
  {
    hide Mul, Reciprocal, Coefficient;
    CoefficientInvertible(row, col);
    DivideOut(Reciprocal(Coefficient(row, col)), Coefficient(row, col), x);
  }

  /** s * (p * x + q * y) + q * (r * x + s * y) == (s * p + q * r) * x */
  lemma Eliminate(p: Byte, q: Byte, r: Byte, s: Byte, x: Byte, y: Byte)
    ensures Add(Mul(s, Add(Mul(p, x), Mul(q, y))), Mul(q, Add(Mul(r, x), Mul(s, y))))
         == Mul(Add(Mul(s, p), Mul(q, r)), x)
  {
    hide Mul, Add;
    MulDistributes(Mul(p, x), Mul(q, y), s);
    MulDistributes(Mul(r, x), Mul(s, y), q);
    MulDistributes(Mul(s, p), Mul(q, r), x);
    MulAssociates(s, p, x);
    MulAssociates(q, r, x);
    MulAssociates(s, q, y);
    MulAssociates(q, s, y);
    MulCommutes(s, q);
    AddExchange(Mul(s, Mul(p, x)), Mul(s, Mul(q, y)), Mul(q, Mul(r, x)), Mul(q, Mul(s, y)));
    AddCancels(Mul(s, Mul(q, y)), ZERO);
    AddCancels(Add(Mul(s, Mul(p, x)), Mul(q, Mul(r, x))), ZERO);
  }

  /** The contribution to a parity byte of data bytes x in column i and y in column j. */
  function Combine(row: nat, i: nat, j: nat, x: Byte, y: Byte): Byte
    requires row < FEC_SHARDS && i < DATA_SHARDS && j < DATA_SHARDS
  {
    Add(Mul(Coefficient(row, i), x), Mul(Coefficient(row, j), y))
  }

  /** Two equations in two unknowns: Cramer's rule finds the unknowns. */
  lemma SolveTwoFinds(i: nat, j: nat, x: Byte, y: Byte)
    requires i < j < DATA_SHARDS
    ensures SolveFirst(i, j, Combine(0, i, j, x, y), Combine(1, i, j, x, y)) == x
    ensures SolveSecond(i, j, Combine(0, i, j, x, y), Combine(1, i, j, x, y)) == y
  {
    hide Mul, Add, Reciprocal, Coefficient;
    var p, q := Coefficient(0, i), Coefficient(0, j);
    var r, s := Coefficient(1, i), Coefficient(1, j);
    MinorInvertible(i, j);
    Eliminate(p, q, r, s, x, y);
    DivideOut(Reciprocal(Minor(i, j)), Minor(i, j), x);
    Eliminate(q, p, s, r, y, x);
    AddCommutes(Mul(p, x), Mul(q, y));
    AddCommutes(Mul(r, x), Mul(s, y));
    MulCommutes(r, q);
    MulCommutes(p, s);
    AddCommutes(Mul(r, q), Mul(p, s));
    DivideOut(Reciprocal(Minor(i, j)), Minor(i, j), y);
  }

  /** Cramer's rule finds a solution for every right-hand side. */
  lemma SolveTwoSolves(i: nat, j: nat, s0: Byte, s1: Byte)
    requires i < j < DATA_SHARDS
    ensures var x, y := SolveFirst(i, j, s0, s1), SolveSecond(i, j, s0, s1);
            Combine(0, i, j, x, y) == s0 && Combine(1, i, j, x, y) == s1
  {
    hide Mul, Add, Reciprocal, Coefficient;
    var p, q := Coefficient(0, i), Coefficient(0, j);
    var r, s := Coefficient(1, i), Coefficient(1, j);
    var d := Reciprocal(Minor(i, j));
    MinorInvertible(i, j);
    PullOut(p, q, d, Add(Mul(s, s0), Mul(q, s1)), Add(Mul(r, s0), Mul(p, s1)));
    PullOut(r, s, d, Add(Mul(s, s0), Mul(q, s1)), Add(Mul(r, s0), Mul(p, s1)));
    Eliminate(s, q, r, p, s0, s1);
    Eliminate(p, r, q, s, s1, s0);
    MulCommutes(p, s);
    MulCommutes(r, q);
    AddCommutes(Mul(q, s1), Mul(s, s0));
    AddCommutes(Mul(p, s1), Mul(r, s0));
    AddCommutes(Mul(r, Add(Mul(s, s0), Mul(q, s1))), Mul(s, Add(Mul(r, s0), Mul(p, s1))));
    DivideOut(d, Minor(i, j), s0);
    DivideOut(d, Minor(i, j), s1);
    MulAssociates(d, Minor(i, j), s0);
    MulAssociates(d, Minor(i, j), s1);
  }

  lemma PullOut(p: Byte, q: Byte, d: Byte, x: Byte, y: Byte)
    ensures Add(Mul(p, Mul(d, x)), Mul(q, Mul(d, y))) == Mul(d, Add(Mul(p, x), Mul(q, y)))
  {
    hide Mul, Add;
    MulAssociates(p, d, x);
    MulAssociates(q, d, y);
    MulCommutes(p, d);
    MulCommutes(q, d);
    MulAssociates(d, p, x);
    MulAssociates(d, q, y);
    MulDistributes(Mul(p, x), Mul(q, y), d);
  }

  // ---------- the main results ----------

  /** A data byte set in a column that was zero there adds its weight to the parity. */
  lemma {:induction false} SumOfOne(row: nat, column: seq<Byte>, i: nat, x: Byte, from: nat)
    requires row < FEC_SHARDS && |column| == DATA_SHARDS && i < DATA_SHARDS && from <= DATA_SHARDS
    requires column[i] == ZERO
    ensures WeightedSum(row, column[i := x], from)
         == if from <= i then Add(WeightedSum(row, column, from), Mul(Coefficient(row, i), x))
            else WeightedSum(row, column, from)
    decreases DATA_SHARDS - from
  {
    hide Mul, Add, Coefficient;
    if from < DATA_SHARDS {
      SumOfOne(row, column, i, x, from + 1);
      var rest := WeightedSum(row, column, from + 1);
      if from < i {
        AddAssociates(Mul(Coefficient(row, from), column[from]), rest, Mul(Coefficient(row, i), x));
      } else if from == i {
        MulZero(Coefficient(row, i));
        MulCommutes(Coefficient(row, i), ZERO);
        AddCancels(rest, ZERO);
        AddCommutes(rest, Mul(Coefficient(row, i), x));
      }
    }
  }

  /** The six shards of a block: the data, then the two parities. */
  function Codeword(data: seq<Shard>, len: nat): (word: seq<Shard>)
    requires DataShards(data, len)
    ensures |word| == TOTAL_SHARDS
  {
    data + [Encode(data, len, 0), Encode(data, len, 1)]
  }

  /** What was received agrees with the block of the given data. */
  predicate PartOf(shards: Received, data: seq<Shard>, len: nat)
    requires DataShards(data, len)
  {
    forall i :: 0 <= i < TOTAL_SHARDS && shards[i].Some? ==> shards[i].value == Codeword(data, len)[i]
  }

  /** The column with the missing bytes filled in. */
  function Filled(shards: Received, len: nat, i: nat, j: nat, k: nat, x: Byte, y: Byte): (column: seq<Byte>)
    requires SameLength(shards, len) && k < len && i < j <= DATA_SHARDS
    ensures |column| == DATA_SHARDS
  {
    var known := KnownColumn(shards, len, k);
    if j == DATA_SHARDS then known[i := x] else known[i := x][j := y]
  }

  lemma FilledParity(shards: Received, len: nat, i: nat, j: nat, k: nat, x: Byte, y: Byte, row: nat)
    requires SameLength(shards, len) && k < len && Erased(shards, i, j) && row < FEC_SHARDS
    ensures ParityByte(row, Filled(shards, len, i, j, k, x, y))
         == Add(ParityByte(row, KnownColumn(shards, len, k)),
                if j == DATA_SHARDS then Mul(Coefficient(row, i), x) else Combine(row, i, j, x, y))
  {
    hide Mul, Add, Coefficient;
    var known := KnownColumn(shards, len, k);
    SumOfOne(row, known, i, x, 0);
    if j < DATA_SHARDS {
      SumOfOne(row, known[i := x], j, y, 0);
      AddAssociates(ParityByte(row, known), Mul(Coefficient(row, i), x), Mul(Coefficient(row, j), y));
    }
  }

  /** The syndrome of a received parity is what the missing bytes contribute to it. */
  lemma SyndromeOfMissing(shards: Received, len: nat, i: nat, j: nat, k: nat, x: Byte, y: Byte, row: nat)
    requires SameLength(shards, len) && k < len && Erased(shards, i, j) && row < FEC_SHARDS
    requires shards[DATA_SHARDS + row].Some?
    ensures (shards[DATA_SHARDS + row].value[k] == ParityByte(row, Filled(shards, len, i, j, k, x, y)))
        <==> (Syndrome(shards, len, row, k)
              == if j == DATA_SHARDS then Mul(Coefficient(row, i), x) else Combine(row, i, j, x, y))
  {
    FilledParity(shards, len, i, j, k, x, y, row);
    hide Mul, Add, Coefficient, ParityByte, Filled, KnownColumn, Combine;
    var known := ParityByte(row, KnownColumn(shards, len, k));
    var missing := if j == DATA_SHARDS then Mul(Coefficient(row, i), x) else Combine(row, i, j, x, y);
    AddMoves(known, missing, shards[DATA_SHARDS + row].value[k]);
  }

  lemma AddMoves(a: Byte, b: Byte, c: Byte)
    ensures c == Add(a, b) <==> Add(a, c) == b
  {
    hide Add;
    AddCancelsLeft(a, b);
    AddCancelsLeft(a, c);
  }

  lemma AddCancelsLeft(a: Byte, b: Byte)
    ensures Add(a, Add(a, b)) == b
  {
  }

  /** The bytes recovered for column k are the only ones that fit the parities received. */
  lemma RecoveredAreTheOnes(shards: Received, len: nat, i: nat, j: nat, k: nat, x: Byte, y: Byte)
    requires SameLength(shards, len) && k < len && Erased(shards, i, j)
    requires forall row :: 0 <= row < FEC_SHARDS && shards[DATA_SHARDS + row].Some? ==>
               shards[DATA_SHARDS + row].value[k] == ParityByte(row, Filled(shards, len, i, j, k, x, y))
    ensures RecoverByte(shards, len, i, j, i, k) == x
    ensures j < DATA_SHARDS ==> RecoverByte(shards, len, i, j, j, k) == y
  {
    hide Mul, Add, Coefficient, ParityByte, Filled, KnownColumn, SolveOne, SolveFirst, SolveSecond, Syndrome, Combine;
    if j == DATA_SHARDS {
      var row := if shards[DATA_SHARDS].Some? then 0 else 1;
      SyndromeOfMissing(shards, len, i, j, k, x, y, row);
      SolveOneSolves(row, i, x);
    } else {
      SyndromeOfMissing(shards, len, i, j, k, x, y, 0);
      SyndromeOfMissing(shards, len, i, j, k, x, y, 1);
      SolveTwoFinds(i, j, x, y);
    }
  }

  /** And they do fit, when no more than four shards were received. */
  lemma RecoveredFit(shards: Received, len: nat, i: nat, j: nat, k: nat, row: nat)
    requires SameLength(shards, len) && k < len && Erased(shards, i, j)
    requires Count(shards) == DATA_SHARDS
    requires row < FEC_SHARDS && shards[DATA_SHARDS + row].Some?
    ensures var x := RecoverByte(shards, len, i, j, i, k);
            var y := if j < DATA_SHARDS then RecoverByte(shards, len, i, j, j, k) else ZERO;
            shards[DATA_SHARDS + row].value[k] == ParityByte(row, Filled(shards, len, i, j, k, x, y))
  {
    hide Mul, Add, Coefficient, ParityByte, Filled, KnownColumn, SolveOne, SolveFirst, SolveSecond, Syndrome, Combine;
    var x := RecoverByte(shards, len, i, j, i, k);
    var y := if j < DATA_SHARDS then RecoverByte(shards, len, i, j, j, k) else ZERO;
    SyndromeOfMissing(shards, len, i, j, k, x, y, row);
    if j == DATA_SHARDS {
      SolveOneSolves(row, i, Syndrome(shards, len, row, k));
    } else {
      SolveTwoSolves(i, j, Syndrome(shards, len, 0, k), Syndrome(shards, len, 1, k));
    }
  }

  lemma FilledIsColumn(shards: Received, data: seq<Shard>, len: nat, i: nat, j: nat, k: nat)
    requires DataShards(data, len) && SameLength(shards, len) && k < len && Erased(shards, i, j)
    requires forall at :: 0 <= at < DATA_SHARDS && shards[at].Some? ==> shards[at].value == data[at]
    ensures Filled(shards, len, i, j, k, data[i][k], if j < DATA_SHARDS then data[j][k] else ZERO)
         == Column(data, len, k)
  {
    var column := Filled(shards, len, i, j, k, data[i][k], if j < DATA_SHARDS then data[j][k] else ZERO);
    forall at | 0 <= at < DATA_SHARDS ensures column[at] == Column(data, len, k)[at] {
      if at != i && at != j {
        assert shards[at].Some?;
      }
    }
  }

  lemma LengthIsCommon(shards: Received, len: nat)
    requires SameLength(shards, len) && Count(shards) > 0
    ensures LengthOf(shards) == len
  {
  }

  lemma RecoversByte(shards: Received, data: seq<Shard>, len: nat, i: nat, j: nat, at: nat, k: nat)
    requires DataShards(data, len) && PartOf(shards, data, len) && SameLength(shards, len)
    requires Erased(shards, i, j) && k < len && at < DATA_SHARDS && (at == i || at == j)
    ensures RecoverByte(shards, len, i, j, at, k) == data[at][k]
  {
    hide ParityByte, Filled, RecoverByte;
    var y := if j < DATA_SHARDS then data[j][k] else ZERO;
    assert forall c :: 0 <= c < DATA_SHARDS && shards[c].Some? ==> shards[c].value == data[c] by {
      assert forall c :: 0 <= c < DATA_SHARDS ==> Codeword(data, len)[c] == data[c];
    }
    FilledIsColumn(shards, data, len, i, j, k);
    assert Codeword(data, len)[DATA_SHARDS] == Encode(data, len, 0);
    assert Codeword(data, len)[DATA_SHARDS + 1] == Encode(data, len, 1);
    RecoveredAreTheOnes(shards, len, i, j, k, data[i][k], y);
  }

  /** Decoding inverts encoding: whichever four or more shards of a block arrive, its data comes back. */
  lemma ReconstructInvertsEncode(shards: Received, data: seq<Shard>, len: nat)
    requires DataShards(data, len) && PartOf(shards, data, len)
    requires Count(shards) >= DATA_SHARDS
    ensures ReconstructData(shards) == Success(data)
  {
    assert SameLength(shards, len);
    LengthIsCommon(shards, len);
    hide RecoverByte, Encode, LengthOf, Count, Erased, FirstMissing;
    var i := FirstMissing(shards, 0);
    if i == DATA_SHARDS {
      NothingErased(shards);
    } else {
      ErasedIsFound(shards);
      var j := FirstMissing(shards, i + 1);
      forall at, k | 0 <= at < DATA_SHARDS && shards[at].None? && 0 <= k < len
        ensures RecoverByte(shards, len, i, j, at, k) == data[at][k]
      {
        RecoversByte(shards, data, len, i, j, at, k);
      }
    }
    SameShards(ReconstructData(shards).value, data, len);
  }

  lemma SameShards(a: seq<Shard>, b: seq<Shard>, len: nat)
    requires DataShards(a, len) && DataShards(b, len)
    requires forall at, k :: 0 <= at < DATA_SHARDS && 0 <= k < len ==> a[at][k] == b[at][k]
    ensures a == b
  {
    forall at | 0 <= at < DATA_SHARDS ensures a[at] == b[at] {
      assert |a[at]| == |b[at]|;
    }
  }

  /** The code is maximum distance separable: two blocks that agree in four shards are the same block. */
  lemma FourShardsDetermineTheBlock(a: seq<Shard>, b: seq<Shard>, len: nat, shards: Received)
    requires DataShards(a, len) && DataShards(b, len)
    requires PartOf(shards, a, len) && PartOf(shards, b, len) && Count(shards) >= DATA_SHARDS
    ensures a == b
  {
    ReconstructInvertsEncode(shards, a, len);
    ReconstructInvertsEncode(shards, b, len);
  }

  lemma FitsRow(shards: Received, r: seq<Shard>, len: nat, i: nat, j: nat, row: nat)
    requires SameLength(shards, len) && Count(shards) == DATA_SHARDS && Erased(shards, i, j)
    requires DataShards(r, len)
    requires forall at :: 0 <= at < DATA_SHARDS && shards[at].Some? ==> shards[at].value == r[at]
    requires forall at, k :: 0 <= at < DATA_SHARDS && shards[at].None? && 0 <= k < len ==>
               r[at][k] == RecoverByte(shards, len, i, j, at, k)
    requires row < FEC_SHARDS && shards[DATA_SHARDS + row].Some?
    ensures shards[DATA_SHARDS + row].value == Encode(r, len, row)
  {
    hide ParityByte, Filled, RecoverByte, Count;
    forall k | 0 <= k < len
      ensures shards[DATA_SHARDS + row].value[k] == ParityByte(row, Column(r, len, k))
    {
      RecoveredFit(shards, len, i, j, k, row);
      FilledIsColumn(shards, r, len, i, j, k);
    }
  }

  /** What a reconstruction with erasures consists of. */
  lemma ReconstructedBytes(shards: Received, len: nat)
    requires SameLength(shards, len) && Count(shards) >= DATA_SHARDS && FirstMissing(shards, 0) < DATA_SHARDS
    ensures
      var i := FirstMissing(shards, 0);
      var r := ReconstructData(shards);
      && r.Success? && DataShards(r.value, len)
      && (forall at :: 0 <= at < DATA_SHARDS && shards[at].Some? ==> r.value[at] == shards[at].value)
      && Erased(shards, i, FirstMissing(shards, i + 1))
      && (forall at, k :: 0 <= at < DATA_SHARDS && shards[at].None? && 0 <= k < len ==>
            r.value[at][k] == RecoverByte(shards, len, i, FirstMissing(shards, i + 1), at, k))
  {
    LengthIsCommon(shards, len);
    ErasedIsFound(shards);
    hide RecoverByte, LengthOf, Erased, FirstMissing, Count, SameLength;
    var i := FirstMissing(shards, 0);
    var j, r := FirstMissing(shards, i + 1), ReconstructData(shards).value;
    assert forall at :: 0 <= at < DATA_SHARDS ==> r[at] == RestoredShard(shards, len, i, j, at);
  }

  /** Any four shards at all, of one length, are part of exactly one block, and decoding finds it. */
  lemma ReconstructSolves(shards: Received, len: nat)
    requires SameLength(shards, len) && Count(shards) == DATA_SHARDS
    ensures ReconstructData(shards).Success? && DataShards(ReconstructData(shards).value, len)
    ensures PartOf(shards, ReconstructData(shards).value, len)
  {
    LengthIsCommon(shards, len);
    var i := FirstMissing(shards, 0);
    if i == DATA_SHARDS {
      NothingErased(shards);
      hide RecoverByte, Encode, LengthOf, Erased, FirstMissing, Column;
      assert shards[4].None? && shards[5].None?;
    } else {
      ReconstructedBytes(shards, len);
      ErasedIsFound(shards);
      hide ReconstructData, RecoverByte, Encode, LengthOf, Erased, FirstMissing, Column, Count;
      var r, j := ReconstructData(shards).value, FirstMissing(shards, i + 1);
      forall row | 0 <= row < FEC_SHARDS && shards[DATA_SHARDS + row].Some?
        ensures shards[DATA_SHARDS + row].value == Encode(r, len, row)
      {
        FitsRow(shards, r, len, i, j, row);
      }
    }
  }

  lemma Product40By04()
    ensures Mul(0x40, 0x04) == 0x1d
  {
  }

  lemma Product38By08()
    ensures Mul(0x38, 0x08) == 0xdd
  {
  }

  lemma Product0eBy0c()
    ensures Mul(0x0e, 0x0c) == 0x48
  {
  }

  lemma Producta7By04()
    ensures Mul(0xa7, 0x04) == 0xa6
  {
  }

  lemma Product0dBy08()
    ensures Mul(0x0d, 0x08) == 0x68
  {
  }

  lemma Product6cBy0c()
    ensures Mul(0x6c, 0x0c) == 0xea
  {
  }

  function Term(row: nat, column: seq<Byte>, i: nat): Byte
    requires row < FEC_SHARDS && |column| == DATA_SHARDS && i < DATA_SHARDS
  {
    Mul(Coefficient(row, i), column[i])
  }

  lemma SumOfFour(row: nat, column: seq<Byte>)
    requires row < FEC_SHARDS && |column| == DATA_SHARDS
    ensures ParityByte(row, column)
         == Add(Term(row, column, 0), Add(Term(row, column, 1), Add(Term(row, column, 2), Add(Term(row, column, 3), ZERO))))
  {
    hide Mul, Add, Coefficient;
    assert WeightedSum(row, column, 4) == ZERO;
    assert WeightedSum(row, column, 3) == Add(Term(row, column, 3), ZERO);
    assert WeightedSum(row, column, 2) == Add(Term(row, column, 2), WeightedSum(row, column, 3));
    assert WeightedSum(row, column, 1) == Add(Term(row, column, 1), WeightedSum(row, column, 2));
  }

  /** Each row of the matrix adds up to one. */
  lemma RowAddsUpToOne(row: nat)
    requires row < FEC_SHARDS
    ensures Add(Coefficient(row, 0), Add(Coefficient(row, 1), Add(Coefficient(row, 2), Coefficient(row, 3)))) == ONE
  {
  }

  function Moved(column: seq<Byte>, c: Byte): (r: seq<Byte>)
    requires |column| == DATA_SHARDS
    ensures |r| == DATA_SHARDS
  {
    [Add(column[0], c), Add(column[1], c), Add(column[2], c), Add(column[3], c)]
  }

  /** So adding a byte to all four data bytes adds it to both parities. */
  lemma ParityMovesAlong(row: nat, column: seq<Byte>, c: Byte)
    requires row < FEC_SHARDS && |column| == DATA_SHARDS
    ensures ParityByte(row, Moved(column, c)) == Add(ParityByte(row, column), c)
  {
    hide Mul, Add, Coefficient, ParityByte;
    var w0, w1, w2, w3 := Coefficient(row, 0), Coefficient(row, 1), Coefficient(row, 2), Coefficient(row, 3);
    SumOfFour(row, column);
    SumOfFour(row, Moved(column, c));
    MulDistributes(column[0], c, w0);
    MulDistributes(column[1], c, w1);
    MulDistributes(column[2], c, w2);
    MulDistributes(column[3], c, w3);
    var z := Mul(w3, c);
    AddCancels(Term(row, column, 3), ZERO);
    AddCancels(Add(Term(row, column, 3), z), ZERO);
    AddExchange(Term(row, column, 2), Mul(w2, c), Term(row, column, 3), z);
    var y := Add(Mul(w2, c), z);
    AddExchange(Term(row, column, 1), Mul(w1, c), Add(Term(row, column, 2), Term(row, column, 3)), y);
    var x := Add(Mul(w1, c), y);
    AddExchange(Term(row, column, 0), Mul(w0, c), Add(Term(row, column, 1), Add(Term(row, column, 2), Term(row, column, 3))), x);
    MulDistributes(w2, w3, c);
    MulDistributes(w1, Add(w2, w3), c);
    MulDistributes(w0, Add(w1, Add(w2, w3)), c);
    RowAddsUpToOne(row);
    OneMul(c);
  }

  /** The first column of the repository's own test vector, which pins the field polynomial and the matrix. */
  lemma PinnedParities()
    ensures ParityByte(0, [0x00, 0x04, 0x08, 0x0c]) == 0x88
    ensures ParityByte(1, [0x00, 0x04, 0x08, 0x0c]) == 0x24
  {
    hide Mul, ParityByte;
    MulCommutes(0x77, ZERO);
    MulCommutes(0xc7, ZERO);
    MulZero(0x77);
    MulZero(0xc7);
    Product40By04();
    Product38By08();
    Product0eBy0c();
    Producta7By04();
    Product0dBy08();
    Product6cBy0c();
    SumOfFour(0, [0x00, 0x04, 0x08, 0x0c]);
    SumOfFour(1, [0x00, 0x04, 0x08, 0x0c]);
  }

  /** The repository's own test vector: four payloads of four bytes and both parities that Sunshine sends for them. */
  lemma PinnedTestVector()
    ensures Encode(VECTOR, 4, 0) == [0x88, 0x89, 0x8a, 0x8b]
    ensures Encode(VECTOR, 4, 1) == [0x24, 0x25, 0x26, 0x27]
  {
    PinnedParities();
    hide ParityByte;
    var first := [0x00, 0x04, 0x08, 0x0c];
    assert Column(VECTOR, 4, 0) == first;
    forall c: Byte, k: nat | k < 4 && c == [0, 1, 2, 3][k] ensures Column(VECTOR, 4, k) == Moved(first, c) {
    }
    forall row: nat, c: Byte | row < FEC_SHARDS ensures ParityByte(row, Moved(first, c)) == Add(ParityByte(row, first), c) {
      ParityMovesAlong(row, first, c);
    }
    forall row: nat, k: nat | row < FEC_SHARDS && k < 4
      ensures Encode(VECTOR, 4, row)[k] == Add(ParityByte(row, first), [0, 1, 2, 3][k])
    {
      assert Column(VECTOR, 4, k) == Moved(first, [0, 1, 2, 3][k]);
    }
  }

  const VECTOR: seq<Shard> := [[0, 1, 2, 3], [4, 5, 6, 7], [8, 9, 10, 11], [12, 13, 14, 15]]

  /** A block in which the first parity fills both parity slots decodes to its data exactly if its two parities agree. */
  lemma RepeatedRow(shards: Received, data: seq<Shard>, len: nat)
    requires DataShards(data, len) && Count(shards) == DATA_SHARDS
    requires forall i :: 0 <= i < DATA_SHARDS && shards[i].Some? ==> shards[i].value == data[i]
    requires shards[4] == Some(Encode(data, len, 0)) && shards[5] == Some(Encode(data, len, 0))
    ensures ReconstructData(shards).Success?
    ensures ReconstructData(shards).value == data <==> Encode(data, len, 0) == Encode(data, len, 1)
  {
    hide ReconstructData, Encode, Count;
    assert SameLength(shards, len);
    ReconstructSolves(shards, len);
    var r := ReconstructData(shards).value;
    assert Codeword(r, len)[5] == Encode(r, len, 1);
    if Encode(data, len, 0) == Encode(data, len, 1) {
      assert PartOf(shards, data, len);
      ReconstructInvertsEncode(shards, data, len);
    }
  }

  /** With one shard missing and the first parity at hand, decoding does not look at the second parity slot. */
  lemma OneMissingNeedsOneParity(shards: Received, data: seq<Shard>, len: nat)
    requires DataShards(data, len) && SameLength(shards, len) && shards[4] == Some(Encode(data, len, 0))
    requires forall i :: 0 <= i < DATA_SHARDS && shards[i].Some? ==> shards[i].value == data[i]
    requires Here(shards[0]) + Here(shards[1]) + Here(shards[2]) + Here(shards[3]) >= 3
    ensures ReconstructData(shards) == Success(data)
  {
    var other: Received := shards[5 := None];
    assert PartOf(other, data, len) by {
      hide Encode;
    }
    ReconstructInvertsEncode(other, data, len);
    SecondParityIsIgnored(shards, other, len);
  }

  lemma SecondParityIsIgnored(shards: Received, other: Received, len: nat)
    requires SameLength(shards, len) && other == shards[5 := None] && shards[4].Some?
    requires Here(shards[0]) + Here(shards[1]) + Here(shards[2]) + Here(shards[3]) >= 3
    ensures ReconstructData(shards) == ReconstructData(other)
  {
    hide Encode, ParityByte, SolveOne, SolveFirst, SolveSecond;
    LengthIsCommon(shards, len);
    LengthIsCommon(other, len);
    var i := FirstMissing(shards, 0);
    assert FirstMissing(other, 0) == i;
    if i == DATA_SHARDS {
      NothingErased(shards);
      SameShards(ReconstructData(shards).value, ReconstructData(other).value, len);
    } else {
      ErasedIsFound(shards);
      ErasedIsFound(other);
      assert FirstMissing(shards, i + 1) == FirstMissing(other, i + 1) == DATA_SHARDS;
      ReconstructedBytes(shards, len);
      ReconstructedBytes(other, len);
      hide ReconstructData, LengthOf, FirstMissing, Count;
      forall at, k | 0 <= at < DATA_SHARDS && shards[at].None? && 0 <= k < len
        ensures RecoverByte(shards, len, i, DATA_SHARDS, at, k) == RecoverByte(other, len, i, DATA_SHARDS, at, k)
      {
        assert KnownColumn(shards, len, k) == KnownColumn(other, len, k);
      }
      SameShards(ReconstructData(shards).value, ReconstructData(other).value, len);
    }
  }

  ghost predicate LengthsDiffer(shards: Received) {
    exists i, j :: 0 <= i < j < |shards| && shards[i].Some? && shards[j].Some? && |shards[i].value| != |shards[j].value|
  }

  /** Decoding is refused exactly if fewer than four shards are here, or they are not equally long. */
  lemma ReconstructFailsExactlyIf(shards: Received)
    ensures
      var r := ReconstructData(shards);
      && (Count(shards) < 4 ==> r == Failure(TooFewShards))
      && (Count(shards) >= 4 && LengthsDiffer(shards) ==> r == Failure(IncorrectShardSize))
      && (Count(shards) >= 4 && !LengthsDiffer(shards) ==> r.Success?)
  {
    hide RestoredShard, FirstMissing;
    var len := LengthOf(shards);
    var k :| 0 <= k < |shards| && (Count(shards) > 0 ==> shards[k].Some? && |shards[k].value| == len);
    if Count(shards) > 0 && !LengthsDiffer(shards) {
      forall i | 0 <= i < |shards| && shards[i].Some? ensures |shards[i].value| == len {
        assert i < k || k < i || i == k;
      }
    }
  }
}
