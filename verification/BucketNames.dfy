/**
  How a key is turned into the name of the Secret that holds it, and how a
  prefix query decides which Secrets can hold a match.
 */
module BucketNames {
  import opened Text

  /** The key up to its last slash with slashes written as underscores, by way
      of Split and Join as the provider computes it. */
  function RawBucketForKey(key: Str): Str {
    var spl := Split(key, SLASH);
    if |spl| == 1 then spl[0]
    else Join(spl[..|spl| - 1], UNDERSCORE)
  }

  function BucketForKey(key: Str): Str {
    ToLower(RawBucketForKey(key))
  }

  /** The position of the last slash, or -1. */
  function LastSlash(key: Str): (i: int)
    ensures -1 <= i < |key|
    ensures i >= 0 ==> key[i] == SLASH
    ensures forall j :: i < j < |key| ==> key[j] != SLASH
  {
    if key == [] then -1
    else if key[|key| - 1] == SLASH then |key| - 1
    else LastSlash(key[..|key| - 1])
  }

  // A raw bucket name is the key cut at its last slash with every earlier slash
  // replaced; a key without a slash is its own raw name.
  lemma RawBucketIsCut(key: Str)
    ensures LastSlash(key) == -1 ==> RawBucketForKey(key) == key
    ensures LastSlash(key) >= 0 ==>
              RawBucketForKey(key) == Replace(key[..LastSlash(key)], SLASH, UNDERSCORE)
  {
    var i := LastSlash(key);
    if i == -1 {
      SplitWithout(key, SLASH);
    } else {
      var a, b := key[..i], key[i + 1..];
      assert key == a + [SLASH] + b;
      SplitLast(a, SLASH, b);
      assert (Split(a, SLASH) + [b])[..|Split(a, SLASH)|] == Split(a, SLASH);
      JoinSplit(a, SLASH, UNDERSCORE);
    }
  }

  // Pruning buckets by the raw name of the prefix never drops a bucket that
  // holds a key with that prefix.
  lemma RawBucketMonotone(prefix: Str, key: Str)
    requires prefix <= key
    ensures RawBucketForKey(prefix) <= RawBucketForKey(key)
  {
    RawBucketIsCut(prefix);
    RawBucketIsCut(key);
    var i, j := LastSlash(prefix), LastSlash(key);
    if i >= 0 {
      assert key[i] == SLASH;
      assert i <= j;
    } else if j >= 0 {
      assert key[j] == SLASH;
      assert forall n :: 0 <= n < |prefix| ==> prefix[n] == key[n];
      assert |prefix| <= j;
    }
  }

  // No bucket name contains a slash.
  lemma BucketNameHasNoSlash(key: Str)
    ensures SLASH !in BucketForKey(key)
  {
    RawBucketIsCut(key);
    assert SLASH !in RawBucketForKey(key);
  }

  // The collisions are by design: keys in differently spelled directories share
  // a bucket when the spellings agree after joining and lower-casing.
  lemma SameDirectorySameBucket(dir: Str, dir': Str, a: Str, b: Str)
    requires SLASH !in a && SLASH !in b
    ensures BucketForKey(dir + [SLASH] + a) == BucketForKey(dir' + [SLASH] + b)
            <==> ToLower(Replace(dir, SLASH, UNDERSCORE)) == ToLower(Replace(dir', SLASH, UNDERSCORE))
  {
    RawOfDirectory(dir, a);
    RawOfDirectory(dir', b);
  }

  // `B/c/D` lies in bucket `b_c`, whose raw name is `B_c`.
  lemma SampleBucket()
    ensures RawBucketForKey([66, 47, 99, 47, 68]) == [66, 95, 99]
    ensures BucketForKey([66, 47, 99, 47, 68]) == [98, 95, 99]
  {
    RawOfDirectory([66, 47, 99], [68]);
    assert [66, 47, 99] + [SLASH] + [68] == [66, 47, 99, 47, 68];
    assert Replace([66, 47, 99], SLASH, UNDERSCORE) == [66, 95, 99];
    assert ToLower([66, 95, 99]) == [98, 95, 99];
  }

  lemma RawOfDirectory(dir: Str, leaf: Str)
    requires SLASH !in leaf
    ensures RawBucketForKey(dir + [SLASH] + leaf) == Replace(dir, SLASH, UNDERSCORE)
  {
    var key := dir + [SLASH] + leaf;
    RawBucketIsCut(key);
    assert key[|dir|] == SLASH;
    assert forall j :: |dir| < j < |key| ==> key[j] == leaf[j - |dir| - 1];
    assert LastSlash(key) == |dir|;
    assert key[..|dir|] == dir;
  }
}
