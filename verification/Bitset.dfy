/** The bit set that names the linearized operations: an array of 64-bit words, bit
    `p` of the set being bit `p % 64` of word `p / 64`. A word is written out as its
    64 bits, least significant first. */
module Bitset {
  import opened Powers

  const WORD: nat := 64

  type Word = w: seq<bool> | |w| == 64 witness seq(64, _ => false)

  const ZERO: Word := seq(64, _ => false)

  /** The set of naturals that a sequence of words stands for. */
  ghost function Members(words: seq<Word>): set<nat> {
    set p: nat | p < WORD * |words| && Bit(words, p)
  }

  predicate Bit(words: seq<Word>, p: nat)
    requires p < WORD * |words|
  {
    words[p / WORD][p % WORD]
  }

  function WithBit(words: seq<Word>, p: nat, value: bool): seq<Word>
    requires p < WORD * |words|
  {
    words[p / WORD := words[p / WORD][p % WORD := value]]
  }

  function Chunks(bits: nat): (chunks: nat)
    ensures WORD * chunks >= bits
    ensures WORD * chunks < bits + WORD
  {
    bits / WORD + if bits % WORD != 0 then 1 else 0
  }

  lemma WithBitAt(words: seq<Word>, p: nat, value: bool, q: nat)
    requires p < WORD * |words| && q < WORD * |words|
    ensures Bit(WithBit(words, p, value), q) == if p == q then value else Bit(words, q)
  {
    if p / WORD == q / WORD && p % WORD == q % WORD {
      assert p == WORD * (p / WORD) + p % WORD == q;
    }
  }

  lemma WithBitMembers(words: seq<Word>, p: nat)
    requires p < WORD * |words|
    ensures Members(WithBit(words, p, true)) == Members(words) + {p}
    ensures Members(WithBit(words, p, false)) == Members(words) - {p}
  {
    forall q: nat | q < WORD * |words|
      ensures q in Members(WithBit(words, p, true)) <==> q in Members(words) + {p}
      ensures q in Members(WithBit(words, p, false)) <==> q in Members(words) - {p}
    {
      WithBitAt(words, p, true, q);
      WithBitAt(words, p, false, q);
    }
  }

  /** Word-wise comparison decides equality of the sets, for bit sets of one size. */
  lemma SameMembersSameWords(a: seq<Word>, b: seq<Word>)
    requires |a| == |b|
    ensures Members(a) == Members(b) <==> a == b
  {
    if Members(a) == Members(b) {
      forall i | 0 <= i < |a| ensures a[i] == b[i] {
        forall j | 0 <= j < WORD ensures a[i][j] == b[i][j] {
          var p := WORD * i + j;
          assert p / WORD == i && p % WORD == j;
          assert p in Members(a) <==> p in Members(b);
          assert Bit(a, p) == Bit(b, p);
        }
      }
    }
  }

  method NewBitset(bits: nat) returns (b: array<Word>)
    ensures fresh(b) && b.Length == Chunks(bits)
    ensures Members(b[..]) == {}
  {
    b := new Word[Chunks(bits)](_ => ZERO);
    assert forall p: nat :: p < WORD * b.Length ==> !Bit(b[..], p);
  }

  method Clone(b: array<Word>) returns (copy: array<Word>)
    ensures fresh(copy) && copy[..] == b[..]
  {
    copy := new Word[b.Length](_ => ZERO);
    for i := 0 to b.Length
      invariant copy[..i] == b[..i]
    {
      copy[i] := b[i];
    }
    assert copy[..] == copy[..b.Length] == b[..b.Length] == b[..];
  }

  method Set(b: array<Word>, pos: nat)
    requires pos < WORD * b.Length
    modifies b
    ensures b[..] == WithBit(old(b[..]), pos, true)
    ensures Members(b[..]) == old(Members(b[..])) + {pos}
  {
    WithBitMembers(b[..], pos);
    b[pos / WORD] := b[pos / WORD][pos % WORD := true];
  }

  method Clear(b: array<Word>, pos: nat)
    requires pos < WORD * b.Length
    modifies b
    ensures b[..] == WithBit(old(b[..]), pos, false)
    ensures Members(b[..]) == old(Members(b[..])) - {pos}
  {
    WithBitMembers(b[..], pos);
    b[pos / WORD] := b[pos / WORD][pos % WORD := false];
  }

  method Get(b: array<Word>, pos: nat) returns (r: bool)
    requires pos < WORD * b.Length
    ensures r <==> pos in Members(b[..])
  {
    r := b[pos / WORD][pos % WORD];
    assert r == Bit(b[..], pos);
  }

  method Equals(b: array<Word>, b2: array<Word>) returns (r: bool)
    ensures r <==> b.Length == b2.Length && Members(b[..]) == Members(b2[..])
  {
    if b.Length != b2.Length {
      return false;
    }
    SameMembersSameWords(b[..], b2[..]);
    for i := 0 to b.Length
      invariant b[..i] == b2[..i]
    {
      if b[i] != b2[i] {
        return false;
      }
    }
    assert b[..] == b[..b.Length] == b2[..b.Length] == b2[..];
    return true;
  }

  // ---------------------------------------------------------------------------------
  // Counting and hashing

  /** Number of set bits among the first `p`. */
  function CountBelow(words: seq<Word>, p: nat): nat
    requires p <= WORD * |words|
  {
    if p == 0 then 0 else CountBelow(words, p - 1) + if Bit(words, p - 1) then 1 else 0
  }

  ghost function MembersBelow(words: seq<Word>, p: nat): set<nat>
    requires p <= WORD * |words|
  {
    set q: nat | q < p && Bit(words, q)
  }

  lemma {:induction false} CountIsSize(words: seq<Word>, p: nat)
    requires p <= WORD * |words|
    ensures CountBelow(words, p) == |MembersBelow(words, p)|
  {
    if p == 0 {
      assert MembersBelow(words, p) == {};
    } else {
      CountIsSize(words, p - 1);
      var before := MembersBelow(words, p - 1);
      assert MembersBelow(words, p) == if Bit(words, p - 1) then before + {p - 1} else before;
    }
  }

  function OnesIn(w: Word, k: nat): nat
    requires k <= WORD
  {
    if k == 0 then 0 else OnesIn(w, k - 1) + if w[k - 1] then 1 else 0
  }

  lemma {:induction false} CountWord(words: seq<Word>, i: nat, k: nat)
    requires i < |words| && k <= WORD
    ensures CountBelow(words, WORD * i + k) == CountBelow(words, WORD * i) + OnesIn(words[i], k)
  {
    if k > 0 {
      CountWord(words, i, k - 1);
      var p := WORD * i + k - 1;
      assert p / WORD == i && p % WORD == k - 1;
    }
  }

  method PopCnt(b: array<Word>) returns (total: nat)
    ensures total == |Members(b[..])|
  {
    total := 0;
    for i := 0 to b.Length
      invariant total == CountBelow(b[..], WORD * i)
    {
      CountWord(b[..], i, WORD);
      total := total + OnesIn(b[i], WORD);
    }
    CountIsSize(b[..], WORD * b.Length);
    assert Members(b[..]) == MembersBelow(b[..], WORD * b.Length);
  }

  function Xor(v: Word, w: Word): Word {
    seq(64, i requires 0 <= i < 64 => v[i] != w[i])
  }

  function ToWord(n: nat): Word {
    seq(64, i requires 0 <= i < 64 => PowPositive(2, i); (n / Pow(2, i)) % 2 == 1)
  }

  function XorAll(words: seq<Word>, start: Word): Word {
    if words == [] then start else Xor(XorAll(words[..|words| - 1], start), words[|words| - 1])
  }

  ghost function HashOf(words: seq<Word>): Word {
    XorAll(words, ToWord(|Members(words)|))
  }

  method Hash(b: array<Word>) returns (h: Word)
    ensures h == HashOf(b[..])
  {
    var count := PopCnt(b);
    h := ToWord(count);
    for i := 0 to b.Length
      invariant h == XorAll(b[..i], ToWord(count))
    {
      assert b[..i + 1][..i] == b[..i];
      h := Xor(h, b[i]);
    }
    assert b[..] == b[..b.Length];
  }

  /** The words that have bit `j` set. */
  ghost function Column(words: seq<Word>, j: nat): set<nat>
    requires j < WORD
  {
    set i: nat | i < |words| && words[i][j]
  }

  lemma {:induction false} XorAllBit(words: seq<Word>, start: Word, j: nat)
    requires j < WORD
    ensures XorAll(words, start)[j] <==> start[j] != (|Column(words, j)| % 2 == 1)
  {
    if words == [] {
      assert Column(words, j) == {};
    } else {
      var n := |words| - 1;
      XorAllBit(words[..n], start, j);
      var before := XorAll(words[..n], start);
      assert XorAll(words, start)[j] <==> before[j] != words[n][j];
      hide XorAll, Xor;
      ColumnGrows(words, j);
    }
  }

  lemma ColumnGrows(words: seq<Word>, j: nat)
    requires words != [] && j < WORD
    ensures var n := |words| - 1; |Column(words, j)| == |Column(words[..n], j)| + if words[n][j] then 1 else 0
  {
    var n := |words| - 1;
    assert n !in Column(words[..n], j);
    assert Column(words, j) == Column(words[..n], j) + if words[n][j] then {n} else {};
  }

  /** Bit `j` of the hash is set if exactly one of these is odd: the size of the set over 2^j, the number of words with bit `j`. */
  lemma HashBit(words: seq<Word>, j: nat)
    requires j < WORD
    ensures Pow(2, j) > 0
    ensures HashOf(words)[j] <==> (|Members(words)| / Pow(2, j) % 2 == 1) != (|Column(words, j)| % 2 == 1)
  {
    PowPositive(2, j);
    XorAllBit(words, ToWord(|Members(words)|), j);
  }
}
