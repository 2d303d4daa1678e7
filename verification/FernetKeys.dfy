/**
 * The numbered key directory of goperation/manager/utils/fernet.py.
 *
 * File "0" holds the staged key, the largest number is the primary key, the
 * numbers between are older keys that may still decrypt.  A rotation renames
 * "0" to the next number, stages a fresh key and purges the smallest numbers.
 */
module FernetKeys {
  import opened Wrappers
  import opened NatSets

  /** The text of a key file. */
  type Key = string

  /** The files whose names int() accepts; both listings skip every other name. */
  type Files = map<nat, Key>

  datatype Error = MaxActiveKeysTooSmall | NoKeyFiles | NoStagedKey

  /** sorted(s, reverse=True) */
  function Descending(s: set<nat>): (r: seq<nat>)
    ensures |r| == |s|
    ensures forall x :: x in r <==> x in s
    ensures forall i, j | 0 <= i < j < |r| :: r[i] > r[j]
  {
    if s == {} then []
    else
      var m := MaxOf(s);
      var rest := Descending(s - {m});
      LargestFirst(s, m, rest);
      [m] + rest
  }

  lemma LargestFirst(s: set<nat>, m: nat, rest: seq<nat>)
    requires m in s && (forall x | x in s :: x <= m) && |rest| == |s - {m}|
    requires forall x :: x in rest <==> x in s - {m}
    requires forall i, j | 0 <= i < j < |rest| :: rest[i] > rest[j]
    ensures var r := [m] + rest;
            && |r| == |s| && (forall x :: x in r <==> x in s)
            && (forall i, j | 0 <= i < j < |r| :: r[i] > r[j])
  {
    assert |s - {m}| == |s| - 1;
    forall j | 0 <= j < |rest| ensures rest[j] < m {
      assert rest[j] in rest;
    }
  }

  /** What is left of s once its smallest elements are purged down to n. */
  function Largest(s: set<nat>, n: nat): (r: set<nat>)
    ensures IsLargest(s, n, r)
  {
    if n == 0 || s == {} then {}
    else
      var m := MaxOf(s);
      {m} + Largest(s - {m}, n - 1)
  }

  predicate IsLargest(s: set<nat>, n: nat, r: set<nat>) {
    && r <= s
    && |r| == (if |s| < n then |s| else n)
    && forall x, y :: x in r && y in s && y !in r ==> x > y
  }

  lemma LargestIsUnique(s: set<nat>, n: nat, a: set<nat>, b: set<nat>)
    requires IsLargest(s, n, a) && IsLargest(s, n, b)
    ensures a == b
  {
    LargestIsContained(s, n, a, b);
    LargestIsContained(s, n, b, a);
  }

  lemma LargestIsContained(s: set<nat>, n: nat, a: set<nat>, b: set<nat>)
    requires IsLargest(s, n, a) && IsLargest(s, n, b)
    ensures a <= b
  {
    if x :| x in a && x !in b {
      forall y | y in b ensures y in a - {x} {
        assert y > x;
      }
      SubsetSize(b, a - {x});
    }
  }

  /** The directory without the numbered files outside kept; key 0 is never purged. */
  function Purged(files: Files, kept: set<nat>): Files {
    map i | i in files && (i == 0 || i in kept) :: files[i]
  }

  /** The directory after a rotation that was given everything it needs. */
  function Rotated(files: Files, maxActive: int, newKey: Key): (after: Files)
    requires maxActive >= 1 && 0 in files
  {
    var primary := MaxOf(files.Keys) + 1;
    Purged(Promoted(files, primary, newKey), Largest(files.Keys - {0} + {primary}, maxActive - 1))
  }

  /** Key 0 becomes the primary and a new key is staged. */
  function Promoted(files: Files, primary: nat, newKey: Key): Files
    requires 0 in files
  {
    files[primary := files[0]][0 := newKey]
  }

  /** The purge loop in mid-flight: keys lists what is kept of ids, largest first. */
  ghost predicate Purging(before: Files, ids: set<nat>, keys: seq<nat>, kept: set<nat>, files: Files) {
    && 0 !in ids
    && |keys| == |kept|
    && (forall x :: x in kept <==> x in keys)
    && (forall i, j | 0 <= i < j < |keys| :: keys[i] > keys[j])
    && IsLargest(ids, |kept|, kept)
    && files == Purged(before, kept)
  }

  lemma PurgeStart(files: Files, ids: set<nat>)
    requires 0 !in ids && files.Keys == {0} + ids
    ensures Purging(files, ids, Descending(ids), ids, files)
  {
    hide Descending;
  }

  lemma PurgeStep(before: Files, ids: set<nat>, keys: seq<nat>, kept: set<nat>, files: Files)
    requires Purging(before, ids, keys, kept, files) && keys != []
    ensures var last := keys[|keys| - 1];
            Purging(before, ids, keys[..|keys| - 1], kept - {last}, files - {last})
  {
    hide Purged;
    var last := keys[|keys| - 1];
    var rest := keys[..|keys| - 1];
    assert keys == rest + [last];
    assert last in kept;
    assert last !in rest;
    forall x ensures x in kept - {last} <==> x in rest {
      assert x in keys <==> x in rest || x == last;
    }
    WithoutSmallest(ids, kept, last);
    PurgeOne(before, kept, last);
  }

  lemma PurgeOne(before: Files, kept: set<nat>, last: nat)
    requires last != 0
    ensures Purged(before, kept) - {last} == Purged(before, kept - {last})
  {
  }

  lemma PurgeEnd(before: Files, ids: set<nat>, keys: seq<nat>, kept: set<nat>, files: Files, limit: nat)
    requires Purging(before, ids, keys, kept, files) && |keys| <= limit
    requires |keys| >= limit || kept == ids
    ensures files == Purged(before, Largest(ids, limit))
  {
    hide Largest;
    SubsetSize(kept, ids);
    LargestIsUnique(ids, limit, kept, Largest(ids, limit));
  }

  /** The promoted directory is the old one with a new primary and a new key 0. */
  lemma PromoteByRename(files: Files, primary: nat, newKey: Key)
    requires 0 in files && primary != 0
    ensures (files - {0})[primary := files[0]][0 := newKey]
         == Promoted(files, primary, newKey)
  {
  }

  class KeyRepository {
    var files: Files

    method CreateNewKey(newKey: Key)
      modifies this
      ensures files == old(files)[0 := newKey]
    {
      files := files[0 := newKey];
    }

    method RotateKeys(maxActive: int, newKey: Key) returns (r: Result<(), Error>)
      modifies this
      ensures r.Err? ==> files == old(files)
      ensures r == if maxActive < 1 then Err(MaxActiveKeysTooSmall)
                   else if old(files).Keys == {} then Err(NoKeyFiles)
                   else if 0 !in old(files) then Err(NoStagedKey)
                   else Ok(())
      ensures r.Ok? ==> files == Rotated(old(files), maxActive, newKey)
    {
      hide Largest, MaxOf;
      if maxActive < 1 {
        return Err(MaxActiveKeysTooSmall);
      }
      if files == map[] {
        return Err(NoKeyFiles);
      }
      var primary := MaxOf(files.Keys) + 1;
      if 0 !in files {
        return Err(NoStagedKey);
      }
      files := (files - {0})[primary := files[0]];
      var keyFiles := files;
      CreateNewKey(newKey);
      PromoteByRename(old(files), primary, newKey);
      PurgeExcess(keyFiles.Keys, maxActive);
      assert keyFiles.Keys == old(files).Keys - {0} + {primary};
      return Ok(());
    }

    /** Remove the smallest numbers until maxActive - 1 are left. */
    method PurgeExcess(ids: set<nat>, maxActive: int)
      requires maxActive >= 1 && 0 !in ids
      requires files.Keys == {0} + ids
      modifies this
      ensures files == Purged(old(files), Largest(ids, maxActive - 1))
    {
      hide Purging, Descending, Largest, Purged;
      var keys := Descending(ids);
      ghost var kept := ids;
      assert Purging(old(files), ids, keys, kept, files) by { PurgeStart(files, ids); }
      while |keys| > maxActive - 1
        invariant Purging(old(files), ids, keys, kept, files)
        invariant |keys| >= maxActive - 1 || kept == ids
      {
        PurgeStep(old(files), ids, keys, kept, files);
        kept := kept - {keys[|keys| - 1]};
        files := files - {keys[|keys| - 1]};
        keys := keys[..|keys| - 1];
      }
      PurgeEnd(old(files), ids, keys, kept, files, maxActive - 1);
    }

    /** A repository that already has its key 0 is left alone. */
    method InitializeKeyRepository(maxActive: int, key0: Key, key1: Key) returns (r: Result<(), Error>)
      modifies this
      ensures 0 in old(files) ==> r == Ok(()) && files == old(files)
      ensures 0 !in old(files) && maxActive >= 1 ==>
                r == Ok(()) && files == Rotated(old(files)[0 := key0], maxActive, key1)
      ensures 0 !in old(files) && maxActive < 1 ==>
                r == Err(MaxActiveKeysTooSmall) && files == old(files)[0 := key0]
    {
      if 0 in files {
        return Ok(());
      }
      CreateNewKey(key0);
      r := RotateKeys(maxActive, key1);
    }

    method LoadKeys() returns (loaded: seq<Key>)
      ensures loaded == Loaded(files)
    {
      hide Descending;
      loaded := [];
      var order := Descending(files.Keys);
      for i := 0 to |order|
        invariant |loaded| == i && forall k | 0 <= k < i :: loaded[k] == files[order[k]]
      {
        loaded := loaded + [files[order[i]]];
      }
    }
  }

  lemma WithoutSmallest(s: set<nat>, r: set<nat>, least: nat)
    requires IsLargest(s, |r|, r) && least in r
    requires forall x | x in r :: least <= x
    ensures IsLargest(s, |r| - 1, r - {least})
  {
    SubsetSize(r, s);
  }

  /** load_keys: contents by descending number, so the primary key comes first. */
  function Loaded(files: Files): (loaded: seq<Key>) {
    var order := Descending(files.Keys);
    seq(|order|, i requires 0 <= i < |order| => files[order[i]])
  }

  /** The directory after r rotations of a repository bootstrapped with the keys gen[0], gen[1], ... */
  ghost function After(gen: seq<Key>, maxActive: int, r: nat): (files: Files)
    requires maxActive >= 1 && r < |gen|
    ensures 0 in files
  {
    if r == 0 then map[0 := gen[0]]
    else Rotated(After(gen, maxActive, r - 1), maxActive, gen[r])
  }

  /** The first number that r rotations leave behind. */
  function Low(maxActive: int, r: nat): (low: nat)
    requires maxActive >= 1
    ensures 1 <= low <= r + 1
  {
    if r < maxActive - 1 then 1 else r - maxActive + 2
  }

  /** The numbers lo..hi. */
  function Block(lo: nat, hi: int): (s: set<nat>)
    requires lo <= hi + 1
    ensures forall i :: i in s <==> lo <= i <= hi
    ensures |s| == hi - lo + 1
    decreases hi - lo
  {
    if lo == hi + 1 then {} else Block(lo, hi - 1) + {hi}
  }

  /** The closed form: key 0 and a block of numbers that ends at the primary, r. */
  ghost predicate IsWindow(files: Files, gen: seq<Key>, maxActive: int, r: nat)
    requires maxActive >= 1 && r < |gen|
  {
    var block := Block(Low(maxActive, r), r);
    && files.Keys == {0} + block
    && files[0] == gen[r]
    && forall i: nat :: i in block ==> files[i] == gen[i - 1]
  }

  /** The numbers a rotation of a window keeps. */
  lemma KeptOfWindow(maxActive: int, r: nat, ids: set<nat>)
    requires maxActive >= 1
    requires ids == {0} + Block(Low(maxActive, r), r)
    ensures maxActive > 1 ==> MaxOf(ids) == r
    ensures Largest(ids - {0} + {MaxOf(ids) + 1}, maxActive - 1) == Block(Low(maxActive, r + 1), r + 1)
  {
    hide Largest, MaxOf, Block, IsLargest;
    if maxActive > 1 {
      BlockMax(Low(maxActive, r), r, ids);
      BlockGrows(Low(maxActive, r), r, ids);
    }
    hide Low;
    var promoted := ids - {0} + {MaxOf(ids) + 1};
    var kept := Block(Low(maxActive, r + 1), r + 1);
    BlockIsLargest(promoted, maxActive, r, kept);
    LargestIsUnique(promoted, maxActive - 1, kept, Largest(promoted, maxActive - 1));
  }

  lemma BlockMax(lo: nat, r: nat, ids: set<nat>)
    requires lo <= r + 1 && (r > 0 ==> lo <= r) && ids == {0} + Block(lo, r)
    ensures MaxOf(ids) == r
  {
    hide Block, MaxOf;
    assert r in ids;
  }

  lemma BlockGrows(lo: nat, r: nat, ids: set<nat>)
    requires 1 <= lo <= r + 1 && ids == {0} + Block(lo, r)
    ensures ids - {0} + {r + 1} == Block(lo, r + 1)
  {
    hide Block;
  }

  lemma BlockIsLargest(promoted: set<nat>, maxActive: int, r: nat, kept: set<nat>)
    requires maxActive >= 1 && kept == Block(Low(maxActive, r + 1), r + 1)
    requires maxActive > 1 ==> promoted == Block(Low(maxActive, r), r + 1)
    ensures IsLargest(promoted, maxActive - 1, kept)
  {
    hide Block;
    if maxActive == 1 {
      assert kept == {};
    }
  }

  /** A number of the next window is the new primary, or was in the window before. */
  lemma NextBlock(maxActive: int, r: nat, i: nat)
    requires maxActive >= 1 && i in Block(Low(maxActive, r + 1), r + 1)
    ensures maxActive > 1 && (i == r + 1 || i in Block(Low(maxActive, r), r)) && i != 0
  {
    hide Block;
  }

  lemma WindowParts(files: Files, gen: seq<Key>, maxActive: int, r: nat)
    requires maxActive >= 1 && r < |gen| && IsWindow(files, gen, maxActive, r)
    ensures files.Keys == {0} + Block(Low(maxActive, r), r) && files[0] == gen[r]
  {
    hide Block;
  }

  lemma WindowKey(files: Files, gen: seq<Key>, maxActive: int, r: nat, i: nat)
    requires maxActive >= 1 && r < |gen| && IsWindow(files, gen, maxActive, r) && i in Block(Low(maxActive, r), r)
    ensures i in files && files[i] == gen[i - 1]
  {
    hide Block;
  }

  /** What a rotation keeps under the number i. */
  lemma KeptKey(files: Files, gen: seq<Key>, maxActive: int, r: nat, primary: nat, i: nat)
    requires maxActive >= 1 && r + 1 < |gen| && IsWindow(files, gen, maxActive, r)
    requires i in Block(Low(maxActive, r + 1), r + 1) && (maxActive > 1 ==> primary == r + 1)
    ensures 0 in files && i != 0
    ensures i in Promoted(files, primary, gen[r + 1]) && Promoted(files, primary, gen[r + 1])[i] == gen[i - 1]
  {
    hide IsWindow, Block;
    WindowParts(files, gen, maxActive, r);
    NextBlock(maxActive, r, i);
    if i != r + 1 {
      WindowKey(files, gen, maxActive, r, i);
    }
  }

  lemma PurgedIsWindow(files: Files, gen: seq<Key>, maxActive: int, r: nat, primary: nat, kept: set<nat>)
    requires maxActive >= 1 && r + 1 < |gen| && IsWindow(files, gen, maxActive, r) && 0 in files
    requires kept == Block(Low(maxActive, r + 1), r + 1) && primary != 0 && (maxActive > 1 ==> primary == r + 1)
    ensures IsWindow(Purged(Promoted(files, primary, gen[r + 1]), kept), gen, maxActive, r + 1)
  {
    hide Block, IsWindow, Purged;
    var promoted := Promoted(files, primary, gen[r + 1]);
    assert 0 in promoted && promoted[0] == gen[r + 1];
    hide Promoted;
    forall i | i in kept ensures i != 0 && i in promoted && promoted[i] == gen[i - 1] {
      KeptKey(files, gen, maxActive, r, primary, i);
    }
    IsPurgedWindow(promoted, gen, maxActive, r + 1, kept);
  }

  lemma PurgedKeys(files: Files, kept: set<nat>)
    requires 0 in files && forall i :: i in kept ==> i in files
    ensures Purged(files, kept).Keys == {0} + kept
    ensures Purged(files, kept)[0] == files[0]
    ensures forall i :: i in kept ==> Purged(files, kept)[i] == files[i]
  {
  }

  lemma IsPurgedWindow(promoted: Files, gen: seq<Key>, maxActive: int, r: nat, kept: set<nat>)
    requires maxActive >= 1 && r < |gen| && kept == Block(Low(maxActive, r), r)
    requires 0 in promoted && promoted[0] == gen[r]
    requires forall i :: i in kept ==> i != 0 && i in promoted && promoted[i] == gen[i - 1]
    ensures IsWindow(Purged(promoted, kept), gen, maxActive, r)
  {
    hide Block, Low, Purged, IsWindow;
    PurgedKeys(promoted, kept);
    WindowFromParts(Purged(promoted, kept), gen, maxActive, r);
  }

  lemma WindowFromParts(files: Files, gen: seq<Key>, maxActive: int, r: nat)
    requires maxActive >= 1 && r < |gen| && files.Keys == {0} + Block(Low(maxActive, r), r) && files[0] == gen[r]
    requires forall i :: i in Block(Low(maxActive, r), r) ==> files[i] == gen[i - 1]
    ensures IsWindow(files, gen, maxActive, r)
  {
    hide Block;
  }

  lemma RotateWindow(files: Files, gen: seq<Key>, maxActive: int, r: nat)
    requires maxActive >= 1 && r + 1 < |gen|
    requires IsWindow(files, gen, maxActive, r)
    ensures IsWindow(Rotated(files, maxActive, gen[r + 1]), gen, maxActive, r + 1)
  {
    hide Largest, MaxOf, Block, Purged, Promoted, IsWindow;
    WindowParts(files, gen, maxActive, r);
    KeptOfWindow(maxActive, r, files.Keys);
    PurgedIsWindow(files, gen, maxActive, r, MaxOf(files.Keys) + 1, Block(Low(maxActive, r + 1), r + 1));
  }

  lemma WindowAtStart(gen: seq<Key>, maxActive: int)
    requires maxActive >= 1 && |gen| > 0
    ensures IsWindow(map[0 := gen[0]], gen, maxActive, 0)
  {
    hide Block;
    assert Block(Low(maxActive, 0), 0) == {};
  }

  /** After any number of rotations the directory is exactly the window. */
  lemma {:induction false} RotationsKeepWindow(gen: seq<Key>, maxActive: int, r: nat)
    requires maxActive >= 1 && r < |gen|
    ensures IsWindow(After(gen, maxActive, r), gen, maxActive, r)
  {
    hide Rotated, IsWindow;
    if r == 0 {
      WindowAtStart(gen, maxActive);
    } else {
      RotationsKeepWindow(gen, maxActive, r - 1);
      RotateWindow(After(gen, maxActive, r - 1), gen, maxActive, r - 1);
    }
  }

  /** Never more than maxActive key files, and exactly that many once enough rotations were made. */
  lemma ActiveKeyCount(gen: seq<Key>, maxActive: int, r: nat)
    requires maxActive >= 1 && r < |gen|
    ensures |After(gen, maxActive, r)| == if r + 1 < maxActive then r + 1 else maxActive
  {
    hide After, Block;
    RotationsKeepWindow(gen, maxActive, r);
    var block := Block(Low(maxActive, r), r);
    assert 0 !in block && |{0} + block| == 1 + |block|;
  }

  /** No key was generated twice. */
  ghost predicate AllDistinct(gen: seq<Key>) {
    forall i, j | 0 <= i < j < |gen| :: gen[i] != gen[j]
  }

  /** Every key file is loaded, and the one with the largest number comes first. */
  lemma LoadedIsEveryFile(files: Files, key: Key)
    ensures key in Loaded(files) <==> exists i :: i in files && files[i] == key
    ensures files != map[] ==> |Loaded(files)| > 0 && Loaded(files)[0] == files[MaxOf(files.Keys)]
  {
    hide Descending, MaxOf;
    var order, loaded := Descending(files.Keys), Loaded(files);
    if key in loaded {
      var k :| 0 <= k < |loaded| && loaded[k] == key;
      assert order[k] in files;
    }
    if i :| i in files && files[i] == key {
      assert i in order;
      var k :| 0 <= k < |order| && order[k] == i;
      assert loaded[k] == key;
    }
    if files != map[] {
      var top := MaxOf(files.Keys);
      assert top in order;
      assert order[0] in files.Keys;
    }
  }

  /** Element k of a slice, and where the elements of a slice come from. */
  lemma SliceAt(gen: seq<Key>, lo: nat, hi: nat, k: nat)
    requires lo <= k < hi <= |gen|
    ensures gen[k] in gen[lo..hi]
  {
    assert gen[lo..hi][k - lo] == gen[k];
  }

  lemma SliceFrom(gen: seq<Key>, lo: nat, hi: nat, key: Key) returns (k: nat)
    requires lo <= hi <= |gen| && key in gen[lo..hi]
    ensures lo <= k < hi && gen[k] == key
  {
    var j :| 0 <= j < hi - lo && gen[lo..hi][j] == key;
    k := lo + j;
  }

  /** The keys of a window are the last few generated ones. */
  lemma WindowKeys(files: Files, gen: seq<Key>, maxActive: int, n: nat, key: Key)
    requires maxActive >= 1 && n < |gen|
    requires IsWindow(files, gen, maxActive, n)
    ensures (exists i :: i in files && files[i] == key) <==> key in gen[Low(maxActive, n) - 1..n + 1]
  {
    var low := Low(maxActive, n);
    hide *;
    if i :| i in files && files[i] == key {
      HeldIsRecent(files, gen, maxActive, n, i);
    }
    if key in gen[low - 1..n + 1] {
      var k := SliceFrom(gen, low - 1, n + 1, key);
      var i := RecentIsHeld(files, gen, maxActive, n, k);
    }
  }

  lemma HeldIsRecent(files: Files, gen: seq<Key>, maxActive: int, n: nat, i: nat)
    requires maxActive >= 1 && n < |gen| && IsWindow(files, gen, maxActive, n) && i in files
    ensures files[i] in gen[Low(maxActive, n) - 1..n + 1]
  {
    var low := Low(maxActive, n);
    hide *;
    WindowParts(files, gen, maxActive, n);
    if i == 0 {
      SliceAt(gen, low - 1, n + 1, n);
    } else {
      WindowKey(files, gen, maxActive, n, i);
      SliceAt(gen, low - 1, n + 1, i - 1);
    }
  }

  lemma RecentIsHeld(files: Files, gen: seq<Key>, maxActive: int, n: nat, k: nat) returns (i: nat)
    requires maxActive >= 1 && n < |gen| && IsWindow(files, gen, maxActive, n)
    requires Low(maxActive, n) - 1 <= k <= n
    ensures i in files && files[i] == gen[k]
  {
    hide Block, IsWindow;
    WindowParts(files, gen, maxActive, n);
    i := k + 1;
    if i == n + 1 {
      i := 0;
    } else {
      WindowKey(files, gen, maxActive, n, i);
    }
  }

  lemma WindowPrimary(files: Files, gen: seq<Key>, maxActive: int, n: nat)
    requires maxActive >= 1 && n < |gen|
    requires IsWindow(files, gen, maxActive, n)
    ensures files != map[]
    ensures files[MaxOf(files.Keys)] == if n == 0 || maxActive == 1 then gen[n] else gen[n - 1]
  {
    hide MaxOf, Block;
    assert 0 in files;
    if n > 0 && maxActive > 1 {
      assert n in Block(Low(maxActive, n), n);
      assert MaxOf(files.Keys) == n;
    } else {
      assert Block(Low(maxActive, n), n) == {};
      assert files.Keys == {0};
    }
  }

  /** Which generated keys a server holds after rotation n, and which of them mints its tokens. */
  lemma LoadedAfter(gen: seq<Key>, maxActive: int, n: nat, key: Key)
    requires maxActive >= 1 && n < |gen|
    ensures key in Loaded(After(gen, maxActive, n)) <==> key in gen[Low(maxActive, n) - 1..n + 1]
    ensures Loaded(After(gen, maxActive, n)) != []
    ensures Loaded(After(gen, maxActive, n))[0] == if n == 0 || maxActive == 1 then gen[n] else gen[n - 1]
  {
    hide MaxOf, Loaded, After, Block, IsWindow;
    var files := After(gen, maxActive, n);
    RotationsKeepWindow(gen, maxActive, n);
    LoadedIsEveryFile(files, key);
    WindowKeys(files, gen, maxActive, n, key);
    WindowPrimary(files, gen, maxActive, n);
  }

  /** The key a server mints tokens with after rotation n. */
  ghost function Primary(gen: seq<Key>, maxActive: int, n: nat): Key
    requires maxActive >= 1 && n < |gen|
  {
    LoadedAfter(gen, maxActive, n, gen[0]);
    Loaded(After(gen, maxActive, n))[0]
  }

  /**
   * A server at rotation n decrypts tokens of rotation m exactly inside the
   * window.  The bound n + 1 is the staged key, which is the next primary.
   */
  lemma CrossServerWindow(gen: seq<Key>, maxActive: int, m: nat, n: nat)
    requires maxActive >= 2 && AllDistinct(gen) && 1 <= m < |gen| && 1 <= n < |gen|
    ensures Primary(gen, maxActive, m) in Loaded(After(gen, maxActive, n))
       <==> n - (maxActive - 2) <= m <= n + 1
  {
    hide Loaded, After;
    LoadedAfter(gen, maxActive, m, gen[0]);
    LoadedAfter(gen, maxActive, n, gen[m - 1]);
    var low := Low(maxActive, n);
    var recent := gen[low - 1..n + 1];
    if low <= m <= n + 1 {
      assert recent[m - low] == gen[m - 1];
    }
  }

  /** With days + 2 active keys, the primary of one rotation is loaded for exactly that many more rotations. */
  lemma RotationWindow(gen: seq<Key>, days: nat, n: nat, k: nat)
    requires AllDistinct(gen) && 1 <= n && n + k < |gen|
    ensures Primary(gen, days + 2, n) in Loaded(After(gen, days + 2, n + k)) <==> k <= days
  {
    CrossServerWindow(gen, days + 2, n, n + k);
  }

  /** A single active key leaves only the staged file, so nothing survives a rotation. */
  lemma SingleActiveKey(gen: seq<Key>, n: nat, k: nat)
    requires AllDistinct(gen) && n + k < |gen|
    ensures After(gen, 1, n).Keys == {0}
    ensures Primary(gen, 1, n) in Loaded(After(gen, 1, n + k)) <==> k == 0
  {
    hide Loaded, After, Block;
    RotationsKeepWindow(gen, 1, n);
    assert Block(Low(1, n), n) == {};
    LoadedAfter(gen, 1, n, gen[0]);
    LoadedAfter(gen, 1, n + k, gen[n]);
  }
}
