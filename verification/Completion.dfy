/**
  The completion index of the `mysql` client (client/completion_hash.cc): a chained hash over all prefixes
  of all added words.
*/
module Completion {
  import opened Text

  /** The words that start with `p`, in the order given. */
  function Matches(words: seq<string>, p: string): (ms: seq<string>)
    ensures |ms| <= |words|
  {
    if words == [] then []
    else if p <= words[0] then [words[0]] + Matches(words[1..], p)
    else Matches(words[1..], p)
  }

  lemma {:induction false} MatchesMember(words: seq<string>, p: string, w: string)
    ensures w in Matches(words, p) <==> w in words && p <= w
  {
    if words != [] { MatchesMember(words[1..], p, w); }
  }

  /** The string starts every word. */
  ghost predicate Common(words: seq<string>, p: string) {
    forall w :: w in words ==> p <= w
  }

  /** A longer prefix keeps some of the matches; it keeps all of them exactly when it keeps as many. */
  lemma {:induction false} MatchesCount(words: seq<string>, p: string, q: string)
    requires p <= q
    ensures |Matches(words, q)| <= |Matches(words, p)|
    ensures |Matches(words, q)| == |Matches(words, p)| <==> Common(Matches(words, p), q)
  {
    if words != [] {
      MatchesCount(words[1..], p, q);
      var rest := Matches(words[1..], p);
      if p <= words[0] {
        assert Matches(words, p) == [words[0]] + rest;
        assert words[0] in Matches(words, p);
        assert forall w :: w in Matches(words, p) <==> w == words[0] || w in rest;
      } else {
        assert !(q <= words[0]);
      }
    }
  }

  /** One character of `hashpjw`; characters are signed bytes. */
  function Mix(h: bv32, c: char): (r: bv32)
    ensures r & 0xF000_0000 == 0
  {
    var byte := (c as int % 256) as bv32;
    var signed := if byte >= 128 then byte + 0xFFFF_FF00 else byte;
    var h' := (h << 4) + signed;
    var g := h' & 0xF000_0000;
    if g != 0 then h' ^ (g >> 24) ^ g else h'
  }

  /** `hashpjw` in 32-bit words; the top four bits of a hash are always clear. */
  function Pjw(key: string): (h: bv32)
    ensures h & 0xF000_0000 == 0
  {
    if key == "" then 0 else Mix(Pjw(key[..|key| - 1]), key[|key| - 1])
  }

  function Hash(key: string): nat {
    Pjw(key) as nat
  }

  method HashPjw(key: string, length: nat) returns (hash: nat)
    requires length <= |key|
    ensures hash == Hash(key[..length])
  {
    var h: bv32 := 0;
    var i := 0;
    while i < length
      invariant 0 <= i <= length
      invariant h == Pjw(key[..i])
    {
      assert key[..i + 1][..i] == key[..i];
      h := Mix(h, key[i]);
      i := i + 1;
    }
    hash := h as nat;
  }

  function Slot(h: nat, size: nat): (j: nat)
    requires size > 0
    ensures j < size
  {
    h % size
  }

  /** A bucket: the first `keyLength` characters of `owner` are its key; `data` is newest first. */
  datatype Bucket = Bucket(h: nat, owner: string, keyLength: nat, count: nat, data: seq<string>) {
    function Key(): string {
      if keyLength <= |owner| then owner[..keyLength] else owner
    }
  }

  type Index = map<string, seq<string>>

  function Get(index: Index, p: string): seq<string> {
    if p in index then index[p] else []
  }

  /** `pHashFunction`: nothing below depends on which hash it is. */
  type HashFunction = string -> nat

  ghost predicate GoodBucket(b: Bucket, slot: nat, size: nat, hash: HashFunction, index: Index)
    requires size > 0
  {
    && 0 < b.keyLength <= |b.owner|
    && b.h == hash(b.Key()) && Slot(b.h, size) == slot
    && b.Key() in index && b.data == index[b.Key()] && b.count == |b.data|
    && b.data != [] && b.owner == b.data[|b.data| - 1]
  }

  /** A chain holds exactly one good bucket for each key that hashes to its slot. */
  ghost predicate GoodChain(chain: seq<Bucket>, slot: nat, size: nat, hash: HashFunction, index: Index)
    requires size > 0
  {
    && (forall k :: 0 <= k < |chain| ==> GoodBucket(chain[k], slot, size, hash, index))
    && (forall j, k :: 0 <= j < k < |chain| ==> chain[j].Key() != chain[k].Key())
    && (forall p :: p in index && Slot(hash(p), size) == slot ==> Has(chain, p))
  }

  ghost predicate Has(chain: seq<Bucket>, p: string) {
    exists k :: 0 <= k < |chain| && chain[k].Key() == p
  }

  /** Changing the entry of a key leaves the chains of other slots good. */
  lemma {:induction false} OtherChain(chain: seq<Bucket>, slot: nat, size: nat, hash: HashFunction,
                                      index: Index, p: string, v: seq<string>)
    requires size > 0 && GoodChain(chain, slot, size, hash, index) && Slot(hash(p), size) != slot
    ensures GoodChain(chain, slot, size, hash, index[p := v])
  {
    var index' := index[p := v];
    forall k | 0 <= k < |chain|
      ensures GoodBucket(chain[k], slot, size, hash, index')
    {
      assert GoodBucket(chain[k], slot, size, hash, index);
    }
  }

  function Extended(b: Bucket, str: string): Bucket {
    b.(count := b.count + 1, data := [str] + b.data)
  }

  lemma {:induction false} BucketExtended(b: Bucket, slot: nat, size: nat, hash: HashFunction, index: Index, str: string)
    requires size > 0 && GoodBucket(b, slot, size, hash, index)
    ensures GoodBucket(Extended(b, str), slot, size, hash, index[b.Key() := [str] + b.data])
  {
  }

  lemma {:induction false} BucketKept(b: Bucket, slot: nat, size: nat, hash: HashFunction, index: Index,
                                      p: string, v: seq<string>)
    requires size > 0 && GoodBucket(b, slot, size, hash, index) && b.Key() != p
    ensures GoodBucket(b, slot, size, hash, index[p := v])
  {
  }

  lemma {:induction false} BucketsExtended(chain: seq<Bucket>, slot: nat, size: nat, hash: HashFunction,
                                           index: Index, k: nat, str: string, j: nat)
    requires size > 0 && GoodChain(chain, slot, size, hash, index)
    requires k < |chain| && j < |chain|
    ensures var chain' := chain[k := Extended(chain[k], str)];
            && chain'[j].Key() == chain[j].Key()
            && GoodBucket(chain'[j], slot, size, hash, index[chain[k].Key() := [str] + chain[k].data])
  {
    assert GoodBucket(chain[j], slot, size, hash, index);
    if j == k {
      BucketExtended(chain[k], slot, size, hash, index, str);
    } else {
      assert chain[j].Key() != chain[k].Key() by { assert j < k || k < j; }
      BucketKept(chain[j], slot, size, hash, index, chain[k].Key(), [str] + chain[k].data);
    }
  }

  lemma {:induction false} KeysKept(chain: seq<Bucket>, chain': seq<Bucket>, q: string)
    requires Has(chain, q) && |chain'| == |chain|
    requires forall j :: 0 <= j < |chain| ==> chain'[j].Key() == chain[j].Key()
    ensures Has(chain', q)
  {
    var j :| 0 <= j < |chain| && chain[j].Key() == q;
    assert chain'[j].Key() == q;
  }

  /** A new entry for the key of bucket `k`. */
  lemma {:induction false} ChainExtended(chain: seq<Bucket>, slot: nat, size: nat, hash: HashFunction,
                                         index: Index, k: nat, str: string)
    requires size > 0 && GoodChain(chain, slot, size, hash, index)
    requires k < |chain|
    ensures GoodChain(chain[k := Extended(chain[k], str)], slot, size, hash,
                      index[chain[k].Key() := [str] + chain[k].data])
  {
    var chain', index' := chain[k := Extended(chain[k], str)], index[chain[k].Key() := [str] + chain[k].data];
    forall j | 0 <= j < |chain|
      ensures chain'[j].Key() == chain[j].Key() && GoodBucket(chain'[j], slot, size, hash, index')
    {
      BucketsExtended(chain, slot, size, hash, index, k, str, j);
    }
    assert GoodBucket(chain[k], slot, size, hash, index);
    forall q | q in index' && Slot(hash(q), size) == slot
      ensures Has(chain', q)
    {
      assert q in index;
      KeysKept(chain, chain', q);
    }
  }

  /** A new bucket at the head of the chain of its key. */
  lemma {:induction false} ChainGrown(chain: seq<Bucket>, slot: nat, size: nat, hash: HashFunction,
                                      index: Index, p: string, str: string)
    requires size > 0 && GoodChain(chain, slot, size, hash, index) && Slot(hash(p), size) == slot
    requires p != "" && p <= str && p !in index
    ensures GoodChain([Bucket(hash(p), str, |p|, 1, [str])] + chain, slot, size, hash, index[p := [str]])
  {
    var b := Bucket(hash(p), str, |p|, 1, [str]);
    var chain', index' := [b] + chain, index[p := [str]];
    assert b.Key() == p;
    forall j | 0 <= j < |chain'|
      ensures GoodBucket(chain'[j], slot, size, hash, index')
    {
      if j > 0 {
        assert chain'[j] == chain[j - 1] && GoodBucket(chain[j - 1], slot, size, hash, index);
      }
    }
    forall j, k | 0 <= j < k < |chain'|
      ensures chain'[j].Key() != chain'[k].Key()
    {
      assert chain'[k] == chain[k - 1] && GoodBucket(chain[k - 1], slot, size, hash, index);
    }
    forall q | q in index' && Slot(hash(q), size) == slot
      ensures Has(chain', q)
    {
      if q == p {
        assert chain'[0].Key() == q;
      } else {
        assert Has(chain, q);
        var j :| 0 <= j < |chain| && chain[j].Key() == q;
        assert chain'[j + 1].Key() == q;
      }
    }
  }

  /** The index says of every non-empty prefix which words start with it, newest first. */
  ghost predicate Represents(index: Index, words: seq<string>) {
    forall p :: RightAbout(index, words, p)
  }

  ghost predicate RightAbout(index: Index, words: seq<string>, p: string) {
    (p in index <==> p != "" && Matches(words, p) != []) && (p in index ==> index[p] == Matches(words, p))
  }

  /** The prefix is common to all words, and no longer string is. */
  ghost predicate LongestCommonPrefix(words: seq<string>, p: string) {
    && Common(words, p)
    && (forall q :: Common(words, q) ==> |q| <= |p|)
  }

  class CompletionHash {
    const hash: HashFunction
    const table: array<seq<Bucket>>
    ghost var index: Index
    ghost var words: seq<string>  // everything added, newest first

    ghost predicate GoodTable()
      reads this, table
    {
      && table.Length > 0
      && (forall j :: 0 <= j < table.Length ==> GoodChain(table[j], j, table.Length, hash, index))
    }

    ghost predicate Valid()
      reads this, table
    {
      GoodTable() && Represents(index, words)
    }

    constructor (size: nat)
      requires size > 0
      ensures Valid() && words == [] && fresh(table)
      ensures hash == (key => Hash(key))
    {
      hash := key => Hash(key);
      table := new seq<Bucket>[size](_ => []);
      index, words := map[], [];
    }

    /** `completion_hash_find`: the place of the bucket of a key, or the end of its chain. */
    method Find(key: string, length: nat) returns (slot: nat, k: nat)
      requires GoodTable() && length <= |key|
      ensures slot == Slot(hash(key[..length]), table.Length) && k <= |table[slot]|
      ensures k < |table[slot]| <==> key[..length] in index
      ensures k < |table[slot]| ==> table[slot][k].Key() == key[..length]
    {
      ghost var p := key[..length];
      var h := hash(key[..length]);
      slot := Slot(h, table.Length);
      var chain := table[slot];
      assert GoodChain(chain, slot, table.Length, hash, index);
      k := 0;
      while k < |chain|
        invariant 0 <= k <= |chain|
        invariant forall j :: 0 <= j < k ==> chain[j].Key() != p
      {
        assert GoodBucket(chain[k], slot, table.Length, hash, index);
        if chain[k].h == h && chain[k].keyLength == length && chain[k].owner[..length] == key[..length] {
          return;
        }
        k := k + 1;
      }
      assert p in index ==> Has(chain, p);
    }

    /** `completion_hash_update`: files `str` under its prefix of the given length; false stands for FAILURE. */
    method Update(str: string, length: nat) returns (ok: bool)
      requires GoodTable() && length <= |str|
      modifies table, this`index
      ensures GoodTable() && ok == (length > 0)
      ensures index == if ok then old(index)[str[..length] := [str] + Get(old(index), str[..length])] else old(index)
    {
      if length == 0 { return false; }
      var slot, k := Find(str, length);
      var chain := table[slot];
      ghost var p := str[..length];
      ghost var entry := [str] + Get(index, p);
      assert GoodChain(chain, slot, table.Length, hash, index);
      if k < |chain| {
        var b := chain[k];
        assert GoodBucket(b, slot, table.Length, hash, index);
        ChainExtended(chain, slot, table.Length, hash, index, k, str);
        chain := chain[k := b.(count := b.count + 1, data := [str] + b.data)];
      } else {
        ChainGrown(chain, slot, table.Length, hash, index, p, str);
        var h := hash(str[..length]);
        chain := [Bucket(h, str, length, 1, [str])] + chain;
        assert [str] + [] == [str];
      }
      forall j | 0 <= j < table.Length && j != slot
        ensures GoodChain(table[j], j, table.Length, hash, index[p := entry])
      {
        OtherChain(table[j], j, table.Length, hash, index, p, entry);
      }
      table[slot] := chain;
      index := index[p := entry];
      ok := true;
    }

    /** `add_word`: files the word under each of its non-empty prefixes. */
    method AddWord(str: string)
      requires Valid()
      modifies table, this
      ensures Valid() && words == [str] + old(words)
    {
      FiledNone(index, words, str);
      var i := 1;
      while i <= |str|
        invariant 1 <= i <= |str| + 1
        invariant GoodTable() && words == old(words)
        invariant Filed(index, words, str, i - 1)
      {
        FiledStep(index, words, str, i - 1);
        var ok := Update(str, i);
        i := i + 1;
      }
      FiledAll(index, words, str);
      words := [str] + words;
    }

    /** `find_all_matches`: the bucket of a query. */
    method FindAllMatches(str: string) returns (b: Option<Bucket>, length: nat)
      requires Valid()
      ensures b.None? <==> str == "" || Matches(words, str) == []
      ensures b.Some? ==> b.value.data == Matches(words, str) && b.value.count == |Matches(words, str)|
      ensures length == if b.Some? then |str| else 0
    {
      var bucket, found := Lookup(str, |str|);
      assert str[..|str|] == str;
      if found { return Some(bucket), |str|; } else { return None, 0; }
    }

    /** The bucket of a key, if it has one. */
    method Lookup(key: string, length: nat) returns (b: Bucket, found: bool)
      requires Valid() && length <= |key|
      ensures found <==> length > 0 && Matches(words, key[..length]) != []
      ensures found ==> b.Key() == key[..length] && b.keyLength == length <= |b.owner|
      ensures found ==> b.data == Matches(words, key[..length]) && b.count == |b.data|
      ensures found ==> b.owner == b.data[|b.data| - 1]
    {
      var slot, k := Find(key, length);
      assert RightAbout(index, words, key[..length]);
      found := k < |table[slot]|;
      if found {
        assert GoodBucket(table[slot][k], slot, table.Length, hash, index);
        b := table[slot][k];
      } else {
        b := Bucket(0, "", 0, 0, []);
      }
    }

    /** `completion_hash_exists`: compares the key with the whole string that owns its bucket. */
    method Exists(key: string) returns (yes: bool)
      requires Valid()
      ensures yes <==> Answers(words, key)
    {
      var b, found := Lookup(key, |key|);
      assert key[..|key|] == key;
      yes := found && b.owner == key;
    }

    /** `find_longest_match`: follows the newest match and compares bucket counts only. */
    method FindLongestMatch(str: string) returns (length: nat, found: bool)
      requires Valid()
      ensures found <==> str != "" && Matches(words, str) != []
      ensures !found ==> length == 0
      ensures found ==> exists p :: |p| == length && str <= p && LongestCommonPrefix(Matches(words, str), p)
    {
      var b, hit := Lookup(str, |str|);
      assert str[..|str|] == str;
      if !hit { return 0, false; }
      var count, lm, s := b.count, |str|, b.data[0];
      ghost var all := Matches(words, str);
      assert s in all;
      AllStartWith(words, str);
      assert s[..lm] == str;
      while lm < |s|
        invariant |str| <= lm <= |s| && str <= s[..lm]
        invariant Common(all, s[..lm])
      {
        var next, more := Lookup(s, lm + 1);
        OneMore(words, str, s, lm);
        if !more { break; }
        if next.count < count {
          break;
        }
        lm := lm + 1;
      }
      Longest(all, s, lm);
      return lm, true;
    }
  }

  /** Comparing the counts tells whether the next character of one match is common to all. */
  lemma {:induction false} OneMore(words: seq<string>, str: string, s: string, lm: nat)
    requires s in Matches(words, str) && |str| <= lm < |s| && str <= s[..lm]
    ensures Matches(words, s[..lm + 1]) != []
    ensures |Matches(words, s[..lm + 1])| < |Matches(words, str)| <==> !Common(Matches(words, str), s[..lm + 1])
  {
    assert str <= s[..lm + 1];
    MatchesCount(words, str, s[..lm + 1]);
    MatchesMember(words, str, s);
    MatchesMember(words, s[..lm + 1], s);
  }

  /** Half-way through `add_word`: the prefixes up to length `n` are done. */
  ghost predicate Filed(index: Index, words: seq<string>, str: string, n: nat) {
    forall p :: FiledAbout(index, words, str, n, p)
  }

  ghost predicate FiledAbout(index: Index, words: seq<string>, str: string, n: nat, p: string) {
    && (p in index <==> p != "" && (Matches(words, p) != [] || (p <= str && |p| <= n)))
    && (p in index ==> index[p] == if p <= str && |p| <= n then [str] + Matches(words, p) else Matches(words, p))
  }

  lemma {:induction false} FiledNone(index: Index, words: seq<string>, str: string)
    requires Represents(index, words)
    ensures Filed(index, words, str, 0)
  {
    forall p
      ensures FiledAbout(index, words, str, 0, p)
    {
      assert RightAbout(index, words, p);
    }
  }

  lemma {:induction false} FiledAll(index: Index, words: seq<string>, str: string)
    requires Filed(index, words, str, |str|)
    ensures Represents(index, [str] + words)
  {
    forall p
      ensures RightAbout(index, [str] + words, p)
    {
      assert FiledAbout(index, words, str, |str|, p);
      assert ([str] + words)[1..] == words;
    }
  }

  lemma {:induction false} FiledStep(index: Index, words: seq<string>, str: string, n: nat)
    requires n < |str| && Filed(index, words, str, n)
    ensures Filed(index[str[..n + 1] := [str] + Get(index, str[..n + 1])], words, str, n + 1)
  {
    var key := str[..n + 1];
    var index' := index[key := [str] + Get(index, key)];
    assert FiledAbout(index, words, str, n, key);
    var done := n + 1;
    forall p
      ensures FiledAbout(index', words, str, done, p)
    {
      assert FiledAbout(index, words, str, n, p);
      assert p <= str && |p| == n + 1 <==> p == key;
    }
  }

  lemma {:induction false} AllStartWith(words: seq<string>, p: string)
    ensures Common(Matches(words, p), p)
  {
    forall w | w in Matches(words, p)
      ensures p <= w
    {
      MatchesMember(words, p, w);
    }
  }

  /** A common prefix that some word does not go beyond is the longest one. */
  lemma {:induction false} Longest(all: seq<string>, s: string, lm: nat)
    requires s in all && lm <= |s|
    requires Common(all, s[..lm])
    requires lm == |s| || !Common(all, s[..lm + 1])
    ensures LongestCommonPrefix(all, s[..lm])
  {
    forall q | Common(all, q)
      ensures |q| <= lm
    {
      assert q <= s;
      if lm < |s| {
        var w :| w in all && !(s[..lm + 1] <= w);
        assert q <= w;
      }
    }
  }

  /** The oldest word that starts with the key is the key itself. */
  predicate SaysExists(words: seq<string>, key: string) {
    var ms := Matches(words, key);
    ms != [] && ms[|ms| - 1] == key
  }

  /** A longer word with this prefix came first, and the key only later (the newest word is the first of the list). */
  ghost predicate Overshadowed(words: seq<string>, key: string) {
    exists j :: 0 <= j < |words| && EarliestWith(words, key, j) && words[j] != key && key in words[..j]
  }

  /** Word j is the oldest one that starts with the key. */
  ghost predicate EarliestWith(words: seq<string>, key: string, j: nat)
    requires j < |words|
  {
    key <= words[j] && forall i :: j < i < |words| ==> !(key <= words[i])
  }

  lemma {:induction false} OldestMatch(words: seq<string>, key: string) returns (j: nat)
    requires Matches(words, key) != []
    ensures j < |words| && EarliestWith(words, key, j)
    ensures Matches(words, key)[|Matches(words, key)| - 1] == words[j]
  {
    if Matches(words[1..], key) == [] {
      j := 0;
      forall i | 0 < i < |words| ensures !(key <= words[i]) {
        assert words[i] in words[1..];
        MatchesMember(words[1..], key, words[i]);
      }
    } else {
      var k := OldestMatch(words[1..], key);
      j := k + 1;
      forall i | j < i < |words| ensures !(key <= words[i]) {
        assert words[i] == words[1..][i - 1];
      }
    }
  }

  /** What `completion_hash_exists` answers: there is no bucket for the empty key. */
  predicate Answers(words: seq<string>, key: string) {
    key != "" && SaysExists(words, key)
  }

  /**
    The answer of the existence test agrees with the list of words if and only if the key was not added after a longer
    word that was the first to start with it, and is not an added empty word.
  */
  lemma {:induction false} ExistsIsRightIff(words: seq<string>, key: string)
    ensures (Answers(words, key) <==> key in words) <==> !Overshadowed(words, key) && !(key == "" && "" in words)
  {
    MatchesMember(words, key, key);
    if Matches(words, key) != [] {
      var j := OldestMatch(words, key);
      assert key in words && words[j] != key ==> key in words[..j];
    }
  }

  /** After "ab" and then "a" were added, the test denies "a". */
  lemma {:induction false} ExistsMissesWord()
    ensures "a" in ["a", "ab"] && !Answers(["a", "ab"], "a")
  {
    var words := ["a", "ab"];
    assert words[1..] == ["ab"] && ["ab"][1..] == [];
    assert Matches(["ab"], "a") == ["ab"];
    assert Matches(words, "a") == ["a", "ab"];
  }
}
