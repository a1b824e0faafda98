/**
  The permutation word of a border node (server/enclave/masstree/include/permutation.h): in-place
  insertion and removal on nibbles are insertion and removal on the list the word stands for.
 */
module Permutations {
  import opened Nibbles
  import opened Layer

  /** The list a word stands for: its low nibble says how many of the leading nibbles count. */
  function ListOf(s: seq<Nibble>): seq<Nibble>
    requires |s| == NIBBLES
  {
    s[..s[NIBBLES - 1]]
  }

  predicate WordOk(s: seq<Nibble>) {
    |s| == NIBBLES && forall i :: 0 <= i < s[NIBBLES - 1] ==> s[i] <= 14
  }

  class Permutation {
    var body: nat

    ghost function Word(): (s: seq<Nibble>)
      reads this
      ensures |s| == NIBBLES
    {
      Unpack(body, NIBBLES)
    }

    ghost predicate Valid()
      reads this
    {
      body < WORD_LIMIT && WordOk(Word())
    }

    ghost function List(): (l: seq<Nibble>)
      reads this
      requires Valid()
      ensures |l| <= MAX_KEYS && forall i :: 0 <= i < |l| ==> l[i] <= 14
    {
      ListOf(Word())
    }

    /** sizeOne. */
    constructor ()
      ensures Valid() && List() == [0]
    {
      body := 1;
      new;
      SetIs(body, 0, 0);
      ZeroWord(1);
      body := Set(body, 0, 0);
    }

    /** fromSorted. */
    constructor FromSorted(n: nat)
      requires n <= MAX_KEYS
      ensures Valid() && List() == seq(n, i requires 0 <= i < n => i)
    {
      body := 0;
      new;
      ZeroWord(0);
      var i := 0;
      while i < n
        invariant i <= n && body < WORD_LIMIT && Word()[NIBBLES - 1] == 0
        invariant forall k {:trigger Word()[k]} :: 0 <= k < i ==> Word()[k] == k
      {
        SetKeyIndex(i, i);
        i := i + 1;
      }
      SetNumKeys(n);
    }

    /** setPermutation. */
    method Store(p: Permutation)
      requires p.Valid()
      modifies this
      ensures Valid() && List() == old(p.List())
    {
      body := p.body;
    }

    method GetNumKeys() returns (n: nat)
      requires body < WORD_LIMIT
      ensures n == Word()[NIBBLES - 1]
    {
      n := body % 16;
    }

    method SetNumKeys(num: nat)
      requires body < WORD_LIMIT && num <= MAX_KEYS
      modifies this
      ensures body < WORD_LIMIT && Word() == old(Word())[NIBBLES - 1 := num]
    {
      SetCountIs(body, num);
      body := SetCount(body, num);
    }

    method GetKeyIndex(i: nat) returns (x: Nibble)
      requires body < WORD_LIMIT && i < NIBBLES
      ensures x == Word()[i]
    {
      GetIs(body, i);
      x := Get(body, i);
    }

    method SetKeyIndex(i: nat, x: nat)
      requires body < WORD_LIMIT && i <= 14 && x <= 14
      modifies this
      ensures body < WORD_LIMIT && Word() == old(Word())[i := x]
    {
      SetIs(body, i, x);
      body := Set(body, i, x);
    }

    /** Shift what comes later to the right, put the slot number in, and count it. */
    method Insert(at: nat, slot: nat)
      requires Valid() && |List()| < MAX_KEYS && at <= |List()| && slot <= 14
      modifies this
      ensures Valid() && List() == InsertAt(old(List()), at, slot)
    {
      ghost var s, n := Word(), |List()|;
      var num := GetNumKeys();
      hide Unpack;
      var i := num;
      while i > at
        invariant at <= i <= num == n && body < WORD_LIMIT && Word()[NIBBLES - 1] == num
        invariant forall k {:trigger Word()[k]} :: 0 <= k < i ==> Word()[k] == s[k]
        invariant forall k {:trigger Word()[k]} :: i < k <= num ==> Word()[k] == s[k - 1]
      {
        var x := GetKeyIndex(i - 1);
        SetKeyIndex(i, x);
        i := i - 1;
      }
      SetKeyIndex(at, slot);
      num := GetNumKeys();
      SetNumKeys(num + 1);
      Inserted(s, Word(), at, slot);
    }

    /** The search of removeIndex. */
    method Find(slot: nat) returns (at: nat)
      requires Valid() && slot in List()
      ensures at < |List()| && List()[at] == slot && slot !in List()[..at]
    {
      ghost var l := List();
      var num := GetNumKeys();
      at := 0;
      var x := GetKeyIndex(at);
      while x != slot
        invariant at < num == |l| && x == l[at] && slot !in l[..at]
        decreases num - at
      {
        assert l[..at + 1] == l[..at] + [l[at]];
        assert l == l[..at + 1] + l[at + 1..];
        at := at + 1;
        x := GetKeyIndex(at);
      }
    }

    /** removeIndex: shift what comes after the slot number to the left, and count one less. */
    method RemoveIndex(slot: nat)
      requires Valid() && slot in List()
      modifies this
      ensures Valid()
      ensures exists at :: 0 <= at < |old(List())| && old(List())[at] == slot && slot !in old(List())[..at]
                           && List() == RemoveAt(old(List()), at)
    {
      ghost var s, l := Word(), List();
      var num := GetNumKeys();
      var at := Find(slot);
      hide Unpack;
      var target := at;
      while target + 1 <= num - 1
        invariant at <= target < num == |l| && body < WORD_LIMIT
        invariant forall k {:trigger Word()[k]} :: 0 <= k < NIBBLES ==>
              Word()[k] == if at <= k < target then s[k + 1] else s[k]
      {
        var x := GetKeyIndex(target + 1);
        SetKeyIndex(target, x);
        target := target + 1;
      }
      SetNumKeys(num - 1);
      Removed(s, Word(), at);
    }
  }

  lemma Removed(s: seq<Nibble>, s': seq<Nibble>, at: nat)
    requires WordOk(s) && |s'| == NIBBLES && at < s[NIBBLES - 1] && s'[NIBBLES - 1] == s[NIBBLES - 1] - 1
    requires forall k {:trigger s'[k]} :: 0 <= k < s'[NIBBLES - 1] ==> s'[k] == if at <= k then s[k + 1] else s[k]
    ensures WordOk(s') && ListOf(s') == RemoveAt(ListOf(s), at)
  {
  }

  lemma Inserted(s: seq<Nibble>, s': seq<Nibble>, at: nat, slot: nat)
    requires WordOk(s) && |s'| == NIBBLES && at <= s[NIBBLES - 1] < 15 && s'[NIBBLES - 1] == s[NIBBLES - 1] + 1
          && slot <= 14
    requires forall k {:trigger s'[k]} :: 0 <= k < s'[NIBBLES - 1] ==>
          s'[k] == if k < at then s[k] else if k == at then slot else s[k - 1]
    ensures WordOk(s') && ListOf(s') == InsertAt(ListOf(s), at, slot)
  {
  }

  lemma ZeroWord(body: nat)
    requires body < 16
    ensures body < WORD_LIMIT && Unpack(body, NIBBLES)[NIBBLES - 1] == body
  {
  }
}
