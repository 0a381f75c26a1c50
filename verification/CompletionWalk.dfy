/** `new_command_generator` of client/mysql.cc: completions one call at a time, from static cursors. */
module CompletionWalk {
  import opened Text
  import opened Completion

  /** The entries of a bucket that the walk over everything reports: those as long as the bucket's key. */
  function Own(keyLength: nat, data: seq<string>): seq<string> {
    if data == [] then []
    else if |data[0]| == keyLength then [data[0]] + Own(keyLength, data[1..])
    else Own(keyLength, data[1..])
  }

  function OwnOfChain(chain: seq<Bucket>): seq<string> {
    if chain == [] then [] else Own(chain[0].keyLength, chain[0].data) + OwnOfChain(chain[1..])
  }

  function OwnOfAll(chains: seq<seq<Bucket>>): seq<string> {
    if chains == [] then [] else OwnOfChain(chains[0]) + OwnOfAll(chains[1..])
  }

  /** A bucket reports its key once for every time the key was added. */
  lemma {:induction false} OwnCounts(words: seq<string>, key: string, x: string)
    ensures multiset(Own(|key|, Matches(words, key)))[x] == if x == key then multiset(words)[key] else 0
  {
    if words != [] {
      OwnCounts(words[1..], key, x);
      assert words == [words[0]] + words[1..];
      var rest := Matches(words[1..], key);
      if key <= words[0] {
        assert ([words[0]] + rest)[1..] == rest;
        assert |words[0]| == |key| <==> words[0] == key;
      }
    }
  }

  /** The buckets of a chain are filed under different keys with all words that start with them. */
  ghost predicate Filing(chain: seq<Bucket>, words: seq<string>) {
    && (forall k :: 0 <= k < |chain| ==>
          |chain[k].Key()| == chain[k].keyLength && chain[k].data == Matches(words, chain[k].Key()))
    && (forall j, k :: 0 <= j < k < |chain| ==> chain[j].Key() != chain[k].Key())
  }

  lemma {:induction false} ChainCounts(chain: seq<Bucket>, words: seq<string>, x: string)
    requires Filing(chain, words)
    ensures multiset(OwnOfChain(chain))[x] == if Has(chain, x) then multiset(words)[x] else 0
  {
    if chain != [] {
      var b, rest := chain[0], chain[1..];
      assert Filing(rest, words) by {
        assert forall k :: 0 <= k < |rest| ==> rest[k] == chain[k + 1];
      }
      ChainCounts(rest, words, x);
      OwnCounts(words, b.Key(), x);
      HasCons(chain, x);
      if Has(rest, x) {
        var k :| 0 <= k < |rest| && rest[k].Key() == x;
        assert chain[k + 1].Key() == x;
      }
    }
  }

  lemma {:induction false} HasCons(chain: seq<Bucket>, x: string)
    requires chain != []
    ensures Has(chain, x) <==> chain[0].Key() == x || Has(chain[1..], x)
  {
    if Has(chain, x) {
      var k :| 0 <= k < |chain| && chain[k].Key() == x;
      assert k > 0 ==> chain[1..][k - 1].Key() == x;
    }
    if Has(chain[1..], x) {
      var k :| 0 <= k < |chain[1..]| && chain[1..][k].Key() == x;
      assert chain[k + 1].Key() == x;
    }
  }

  /** The chains from slot `j` on report the words whose hash sends them there. */
  lemma {:induction false} AllCounts(chains: seq<seq<Bucket>>, hash: HashFunction, index: Index,
                                     words: seq<string>, j: nat, x: string)
    requires j <= |chains| && |chains| > 0 && Represents(index, words)
    requires forall i :: 0 <= i < |chains| ==> GoodChain(chains[i], i, |chains|, hash, index)
    ensures multiset(OwnOfAll(chains[j..]))[x]
         == if x in index && Slot(hash(x), |chains|) >= j then multiset(words)[x] else 0
    decreases |chains| - j
  {
    if j < |chains| {
      AllCounts(chains, hash, index, words, j + 1, x);
      assert chains[j..][1..] == chains[j + 1..];
      var chain := chains[j];
      assert GoodChain(chain, j, |chains|, hash, index);
      forall k | 0 <= k < |chain|
        ensures |chain[k].Key()| == chain[k].keyLength && chain[k].data == Matches(words, chain[k].Key())
        ensures chain[k].Key() in index && Slot(hash(chain[k].Key()), |chains|) == j
      {
        assert GoodBucket(chain[k], j, |chains|, hash, index);
        assert RightAbout(index, words, chain[k].Key());
      }
      ChainCounts(chain, words, x);
    }
  }

  /** The words that completion can know: an empty word is filed nowhere. */
  function NonEmpty(words: seq<string>): seq<string> {
    if words == [] then []
    else if words[0] == "" then NonEmpty(words[1..])
    else [words[0]] + NonEmpty(words[1..])
  }

  lemma {:induction false} NonEmptyCounts(words: seq<string>, x: string)
    ensures multiset(NonEmpty(words))[x] == if x == "" then 0 else multiset(words)[x]
  {
    if words != [] {
      NonEmptyCounts(words[1..], x);
      assert words == [words[0]] + words[1..];
    }
  }

  /** The walk over everything reports every addition of a non-empty word exactly once. */
  lemma {:induction false} AllReported(ht: CompletionHash)
    requires ht.Valid()
    ensures multiset(OwnOfAll(ht.table[..])) == multiset(NonEmpty(ht.words))
  {
    forall x
      ensures multiset(OwnOfAll(ht.table[..]))[x] == multiset(NonEmpty(ht.words))[x]
    {
      assert ht.table[..][0..] == ht.table[..];
      AllCounts(ht.table[..], ht.hash, ht.index, ht.words, 0, x);
      NonEmptyCounts(ht.words, x);
      assert RightAbout(ht.index, ht.words, x);
      if x in ht.words && x != "" {
        MatchesMember(ht.words, x, x);
      }
    }
  }

  /** What the walk over `chains` still reports from a cursor: slot, bucket in its chain, entries left in it. */
  function ComingFrom(chains: seq<seq<Bucket>>, slot: nat, k: nat, rest: seq<string>): seq<string>
    requires rest != [] ==> slot < |chains| && k < |chains[slot]|
  {
    if rest == [] then []
    else Own(chains[slot][k].keyLength, rest) + Later(chains, slot, k)
  }

  /** What comes after a bucket: the others of its chain and the other chains. */
  function Later(chains: seq<seq<Bucket>>, slot: nat, k: nat): seq<string>
    requires slot < |chains| && k < |chains[slot]|
  {
    OwnOfChain(chains[slot][k + 1..]) + OwnOfAll(chains[slot + 1..])
  }

  /** No bucket is without entries. */
  ghost predicate Used(chains: seq<seq<Bucket>>) {
    forall i, k :: 0 <= i < |chains| && 0 <= k < |chains[i]| ==> chains[i][k].data != []
  }

  /** Some chain from `from` on is used. */
  ghost predicate Anything(chains: seq<seq<Bucket>>, from: nat) {
    exists i :: from <= i < |chains| && chains[i] != []
  }

  lemma {:induction false} MatchIsSomewhere(ht: CompletionHash, text: string)
    requires ht.Valid() && text != "" && Matches(ht.words, text) != []
    ensures Anything(ht.table[..], 0)
  {
    assert RightAbout(ht.index, ht.words, text);
    var slot := Slot(ht.hash(text), ht.table.Length);
    assert GoodChain(ht.table[slot], slot, ht.table.Length, ht.hash, ht.index);
    assert Has(ht.table[slot], text);
    assert ht.table[..][slot] != [];
  }

  lemma {:induction false} TableIsUsed(ht: CompletionHash)
    requires ht.Valid()
    ensures Used(ht.table[..])
  {
    forall i, k | 0 <= i < ht.table.Length && 0 <= k < |ht.table[i]|
      ensures ht.table[i][k].data != []
    {
      assert GoodChain(ht.table[i], i, ht.table.Length, ht.hash, ht.index);
      assert GoodBucket(ht.table[i][k], i, ht.table.Length, ht.hash, ht.index);
    }
  }

  lemma {:induction false} SkipUnused(chains: seq<seq<Bucket>>, slot: nat)
    requires slot < |chains| && chains[slot] == []
    ensures OwnOfAll(chains[slot..]) == OwnOfAll(chains[slot + 1..])
  {
    assert chains[slot..][0] == [] && chains[slot..][1..] == chains[slot + 1..];
  }

  lemma {:induction false} AtUsedChain(chains: seq<seq<Bucket>>, slot: nat)
    requires slot < |chains| && chains[slot] != [] && Used(chains)
    ensures ComingFrom(chains, slot, 0, chains[slot][0].data) == OwnOfAll(chains[slot..])
  {
    var chain := chains[slot];
    assert chains[slot..][0] == chain && chains[slot..][1..] == chains[slot + 1..];
    assert OwnOfChain(chain) == Own(chain[0].keyLength, chain[0].data) + OwnOfChain(chain[1..]);
  }

  lemma {:induction false} AtNextBucket(chains: seq<seq<Bucket>>, slot: nat, k: nat)
    requires slot < |chains| && k < |chains[slot]| && Used(chains)
    ensures ComingFrom(chains, slot, k, chains[slot][k].data)
         == OwnOfChain(chains[slot][k..]) + OwnOfAll(chains[slot + 1..])
  {
    var chain := chains[slot];
    assert chain[k..][0] == chain[k] && chain[k..][1..] == chain[k + 1..];
  }

  /** Reporting or skipping one entry. */
  function Reported(chains: seq<seq<Bucket>>, slot: nat, k: nat, rest: seq<string>): seq<string>
    requires rest != [] && slot < |chains| && k < |chains[slot]|
  {
    if |rest[0]| == chains[slot][k].keyLength then [rest[0]] else []
  }

  lemma {:induction false} OneEntry(chains: seq<seq<Bucket>>, slot: nat, k: nat, rest: seq<string>)
    requires rest != [] && slot < |chains| && k < |chains[slot]|
    ensures ComingFrom(chains, slot, k, rest)
         == Reported(chains, slot, k, rest) +
            if |rest| > 1 then ComingFrom(chains, slot, k, rest[1..]) else Later(chains, slot, k)
  {
    var later := Later(chains, slot, k);
    var n := chains[slot][k].keyLength;
    assert Own(n, rest) == Reported(chains, slot, k, rest) + Own(n, rest[1..]);
    assert Own(n, rest) + later == Reported(chains, slot, k, rest) + (Own(n, rest[1..]) + later);
    assert |rest| == 1 ==> [] + later == later;
  }

  /** The first cursor is behind the second in the walk. */
  ghost predicate Behind(slot: nat, k: nat, rest: seq<string>, slot0: nat, k0: nat, rest0: seq<string>) {
    slot > slot0 || (slot == slot0 && (k > k0 || (k == k0 && |rest| < |rest0|)))
  }

  class Generator {
    const ht: CompletionHash
    var textLength: nat
    var slot: nat          // i
    var k: nat             // b is the k-th bucket of the chain at `slot`
    var rest: seq<string>  // e and the entries behind it, empty when e is null

    constructor (ht: CompletionHash)
      requires ht.Valid()
      ensures this.ht == ht && rest == [] && Valid()
    {
      this.ht := ht;
      textLength, slot, k, rest := 0, 0, 0, [];
      TableIsUsed(ht);
    }

    /** In the walk over everything the cursor is on a bucket. */
    ghost predicate Valid()
      reads this, ht.table
    {
      && Used(ht.table[..])
      && (textLength == 0 && rest != [] ==> slot < ht.table.Length && k < |ht.table[slot]|)
      && (rest != [] ==> Anything(ht.table[..], 0))
    }

    /** What the calls to come will report. */
    ghost function Coming(): seq<string>
      requires Valid()
      reads this, ht.table
    {
      if textLength > 0 then rest else ComingFrom(ht.table[..], slot, k, rest)
    }

    /** What a call and the calls after it will report. */
    ghost function Due(text: string, first: bool): seq<string>
      requires Valid()
      reads this, ht, ht.table
    {
      if !first then Coming() else if text == "" then OwnOfAll(ht.table[..]) else Matches(ht.words, text)
    }

    /** Finds the first used chain from `from` on. */
    method FindUsed(from: nat)
      requires Used(ht.table[..]) && from <= ht.table.Length && textLength == 0
      requires rest != [] ==> Anything(ht.table[..], from)
      modifies this`slot, this`k, this`rest
      ensures Valid() && Coming() == OwnOfAll(ht.table[..][from..])
      ensures slot >= from
    {
      ghost var chains := ht.table[..];
      var i := from;
      while i < ht.table.Length && ht.table[i] == []
        invariant from <= i <= ht.table.Length && (rest != [] ==> Anything(chains, i))
        invariant OwnOfAll(chains[from..]) == OwnOfAll(chains[i..])
      {
        SkipUnused(chains, i);
        i := i + 1;
      }
      slot := i;
      if i < ht.table.Length {
        AtUsedChain(chains, i);
        assert chains[i] != [];
        k, rest := 0, ht.table[i][0].data;
      } else {
        assert chains[i..] == [];
      }
    }

    /** Moves to the bucket after the current one, whose entries are used up. */
    method NextBucket(ghost chains: seq<seq<Bucket>>)
      requires chains == ht.table[..] && Used(chains) && textLength == 0 && rest == []
      requires slot < |chains| && k < |chains[slot]|
      modifies this`slot, this`k, this`rest
      ensures chains == ht.table[..] && Valid()
      ensures ComingFrom(chains, slot, k, rest) == Later(chains, old(slot), old(k))
      ensures slot > old(slot) || (slot == old(slot) && k > old(k))
    {
      if k + 1 == |ht.table[slot]| {
        assert OwnOfChain(chains[slot][k + 1..]) == [];
        ghost var later := OwnOfAll(chains[slot + 1..]);
        FindUsed(slot + 1);
        assert [] + later == later;
      } else {
        AtNextBucket(chains, slot, k + 1);
        k := k + 1;
        rest := ht.table[slot][k].data;
        assert chains[slot] != [];
      }
    }

    /** Moves the cursor past one entry of the walk over everything. */
    method Advance(ghost chains: seq<seq<Bucket>>)
      requires chains == ht.table[..] && Valid() && textLength == 0 && rest != []
      modifies this`slot, this`k, this`rest
      ensures chains == ht.table[..] && Valid()
      ensures ComingFrom(chains, old(slot), old(k), old(rest))
           == Reported(chains, old(slot), old(k), old(rest)) + ComingFrom(chains, slot, k, rest)
      ensures Behind(slot, k, rest, old(slot), old(k), old(rest))
    {
      OneEntry(chains, slot, k, rest);
      rest := rest[1..];
      if rest == [] {
        NextBucket(chains);
      }
    }

    /** Reports the next completion; `first` starts over with a new text. */
    method Next(text: string, first: bool) returns (completion: Option<string>)
      requires ht.Valid() && Valid()
      modifies this
      ensures Valid()
      ensures old(Due(text, first)) == [] ==> completion == None
      ensures old(Due(text, first)) != [] ==> completion.Some?
      ensures completion.Some? ==> old(Due(text, first)) == [completion.value] + Coming()
    {
      if first && text != "" {
        var b, length := ht.FindAllMatches(text);
        if b.None? {
          textLength := |text|;
          return None;
        }
        MatchIsSomewhere(ht, text);
        textLength, rest := |text|, b.value.data;
      } else if first {
        textLength := 0;
        assert ht.table[..][0..] == ht.table[..];
        FindUsed(0);
      }
      if textLength > 0 {
        if rest == [] { return None; }
        completion := Some(rest[0]);
        rest := rest[1..];
      } else {
        completion := Walk();
      }
    }

    /** One turn of the walk over everything: takes the entry if it is as long as its bucket's key. */
    method Turn() returns (completion: Option<string>)
      requires Valid() && textLength == 0 && rest != []
      modifies this`slot, this`k, this`rest
      ensures Valid() && Behind(slot, k, rest, old(slot), old(k), old(rest))
      ensures completion.None? ==> Coming() == old(Coming())
      ensures completion.Some? ==> [completion.value] + Coming() == old(Coming())
    {
      completion := if |rest[0]| == ht.table[slot][k].keyLength then Some(rest[0]) else None;
      Advance(ht.table[..]);
      assert [] + Coming() == Coming();
    }

    /** The loop of the walk over everything. */
    method Walk() returns (completion: Option<string>)
      requires Valid() && textLength == 0
      modifies this`slot, this`k, this`rest
      ensures Valid()
      ensures old(Coming()) == [] ==> completion == None
      ensures old(Coming()) != [] ==> completion.Some?
      ensures completion.Some? ==> old(Coming()) == [completion.value] + Coming()
    {
      completion := None;
      ghost var chains := ht.table[..];
      while rest != [] && completion.None?
        invariant Valid()
        invariant completion.None? ==> Coming() == old(Coming())
        invariant completion.Some? ==> [completion.value] + Coming() == old(Coming())
        decreases |chains| - slot, if slot < |chains| then |chains[slot]| - k else 0, |rest|
      {
        completion := Turn();
      }
    }
  }

  /** The calls after the first one, until the generator returns nothing. */
  method Drain(g: Generator, text: string) returns (all: seq<string>)
    requires g.ht.Valid() && g.Valid()
    modifies g
    ensures all == old(g.Coming())
  {
    all := [];
    ghost var due := g.Coming();
    var c := g.Next(text, false);
    while c.Some?
      invariant g.Valid()
      invariant c.Some? ==> due == all + [c.value] + g.Coming()
      invariant c.None? ==> due == all
      decreases |due| - |all|, c.Some?
    {
      all := all + [c.value];
      ghost var coming := g.Coming();
      c := g.Next(text, false);
      assert c.Some? ==> due == all + ([c.value] + g.Coming());
    }
  }

  /** All completions of a text, call after call until the generator returns nothing. */
  method Completions(g: Generator, text: string) returns (all: seq<string>)
    requires g.ht.Valid() && g.Valid()
    modifies g
    ensures text != "" ==> all == Matches(g.ht.words, text)
    ensures text == "" ==> multiset(all) == multiset(NonEmpty(g.ht.words))
  {
    ghost var due := g.Due(text, true);
    all := [];
    var c := g.Next(text, true);
    if c.Some? {
      var more := Drain(g, text);
      all := [c.value] + more;
    }
    assert all == due;
    if text == "" {
      AllReported(g.ht);
    }
  }
}
