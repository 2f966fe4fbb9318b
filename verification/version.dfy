/** Version keys of install directories: `strip_version` (the leftmost
    `(\d+)\.(\d+)\.(\d+)` in a path), the order Python puts those keys in, and
    the element `sorted(dirs, key=strip_version)[-1]` selects. */
module Version {
  import opened Wrappers
  import opened Text

  type Triple = (nat, nat, nat)

  /** `strip_version`'s result: `None` when the path holds no version. */
  type Key = Option<Triple>

  /** The end of the maximal run of digits that starts at `i`. */
  function DigitRunEnd(s: string, i: nat): (j: nat)
    requires i <= |s|
    ensures i <= j <= |s|
    ensures forall k :: i <= k < j ==> IsDigit(s[k])
    ensures j == |s| || !IsDigit(s[j])
    decreases |s| - i
  {
    if i < |s| && IsDigit(s[i]) then DigitRunEnd(s, i + 1) else i
  }

  /** The groups `(\d+)\.(\d+)\.(\d+)` captures when the regex is tried at
      position `i`. Every `\d+` is greedy, and giving a digit back to either of
      the first two groups leaves a digit, not the required '.', after it, so
      each group is the maximal digit run at its position. */
  function MatchAt(s: string, i: nat): Key
    requires i <= |s|
  {
    var e1 := DigitRunEnd(s, i);
    if e1 == i || e1 == |s| || s[e1] != '.' then None
    else
      var e2 := DigitRunEnd(s, e1 + 1);
      if e2 == e1 + 1 || e2 == |s| || s[e2] != '.' then None
      else
        var e3 := DigitRunEnd(s, e2 + 1);
        if e3 == e2 + 1 then None
        else Some((DigitsValue(s[i..e1]), DigitsValue(s[e1 + 1..e2]), DigitsValue(s[e2 + 1..e3])))
  }

  /** `s[a..b]` is a non-empty run of digits: what one `(\d+)` can capture. */
  predicate DigitSpan(s: string, a: nat, b: nat) {
    a < b <= |s| && forall k :: a <= k < b ==> IsDigit(s[k])
  }

  /** The regex `(\d+)\.(\d+)\.(\d+)` can match at `i` with its groups
      ending at `e1`, `e2` and `e3`: the match set a backtracking engine
      searches. */
  predicate PatternAt(s: string, i: nat, e1: nat, e2: nat, e3: nat) {
    && DigitSpan(s, i, e1) && e1 < |s| && s[e1] == '.'
    && DigitSpan(s, e1 + 1, e2) && e2 < |s| && s[e2] == '.'
    && DigitSpan(s, e2 + 1, e3)
  }

  /** `MatchAt` agrees with the regex: it succeeds exactly when some match
      exists at `i`, and then it returns the groups of the match that every
      other match at `i` shares its first two groups with and whose third
      group is the longest. That is the match greedy backtracking finds
      first. */
  lemma MatchAtIsGreedyMatch(s: string, i: nat)
    requires i <= |s|
    ensures MatchAt(s, i).Some? <==> exists e1: nat, e2: nat, e3: nat :: PatternAt(s, i, e1, e2, e3)
    ensures MatchAt(s, i).Some? ==>
              exists e1: nat, e2: nat, e3: nat ::
                && PatternAt(s, i, e1, e2, e3)
                && MatchAt(s, i) == Some((DigitsValue(s[i..e1]), DigitsValue(s[e1 + 1..e2]), DigitsValue(s[e2 + 1..e3])))
                && forall f1: nat, f2: nat, f3: nat :: PatternAt(s, i, f1, f2, f3) ==> f1 == e1 && f2 == e2 && f3 <= e3
  {
    var e1 := DigitRunEnd(s, i);
    if MatchAt(s, i).Some? {
      var e2 := DigitRunEnd(s, e1 + 1);
      var e3 := DigitRunEnd(s, e2 + 1);
      assert PatternAt(s, i, e1, e2, e3);
      forall f1: nat, f2: nat, f3: nat | PatternAt(s, i, f1, f2, f3)
        ensures f1 == e1 && f2 == e2 && f3 <= e3
      {
        MatchGroupsForced(s, i, f1, f2, f3);
      }
    } else {
      forall f1: nat, f2: nat, f3: nat | PatternAt(s, i, f1, f2, f3)
        ensures false
      {
        MatchGroupsForced(s, i, f1, f2, f3);
      }
    }
  }

  /** In any match at `i` the first two groups are the maximal digit runs and
      the third lies within the maximal run. */
  lemma MatchGroupsForced(s: string, i: nat, f1: nat, f2: nat, f3: nat)
    requires PatternAt(s, i, f1, f2, f3)
    ensures f1 == DigitRunEnd(s, i) && f2 == DigitRunEnd(s, f1 + 1) && f3 <= DigitRunEnd(s, f2 + 1)
    ensures MatchAt(s, i).Some?
  {
    DigitRunEndAt(s, i, f1);
    DigitRunEndAt(s, f1 + 1, f2);
    DigitRunCovers(s, f2 + 1, f3);
  }

  /** A run of digits up to `j` does not stop before `j`. */
  lemma {:induction false} DigitRunCovers(s: string, i: nat, j: nat)
    requires i <= j <= |s|
    requires forall k :: i <= k < j ==> IsDigit(s[k])
    ensures j <= DigitRunEnd(s, i)
    decreases j - i
  {
    if i < j {
      DigitRunCovers(s, i + 1, j);
    }
  }

  /** `re.search` from position `i`: the leftmost position where the regex
      matches. */
  function SearchFrom(s: string, i: nat): (r: Option<nat>)
    requires i <= |s|
    ensures r.Some? ==> i <= r.value <= |s| && MatchAt(s, r.value).Some?
    ensures r.Some? ==> forall j :: i <= j < r.value ==> MatchAt(s, j).None?
    ensures r.None? ==> forall j :: i <= j <= |s| ==> MatchAt(s, j).None?
    decreases |s| - i
  {
    if MatchAt(s, i).Some? then Some(i)
    else if i == |s| then None
    else SearchFrom(s, i + 1)
  }

  /** `strip_version(dir)`: the numbers of the leftmost `N.N.N` in `dir`, or
      `None` when there is none. */
  function StripVersion(dir: string): Key {
    match SearchFrom(dir, 0)
    case None => None
    case Some(i) => MatchAt(dir, i)
  }

  /** `strip_version` returns `None` exactly when the regex matches nowhere,
      and otherwise the groups of the leftmost match. */
  lemma StripVersionIsLeftmostMatch(dir: string)
    ensures StripVersion(dir).None? <==> forall i :: 0 <= i <= |dir| ==> MatchAt(dir, i).None?
    ensures StripVersion(dir).Some? ==>
              exists i :: 0 <= i <= |dir| && MatchAt(dir, i) == StripVersion(dir) &&
                          forall j :: 0 <= j < i ==> MatchAt(dir, j).None?
  {
    var r := SearchFrom(dir, 0);
    if r.Some? {
      assert MatchAt(dir, r.value) == StripVersion(dir);
    }
  }

  lemma {:induction false} DigitRunEndAt(s: string, i: nat, j: nat)
    requires i <= j <= |s|
    requires forall k :: i <= k < j ==> IsDigit(s[k])
    requires j == |s| || !IsDigit(s[j])
    ensures DigitRunEnd(s, i) == j
    decreases j - i
  {
    if i < j {
      DigitRunEndAt(s, i + 1, j);
    }
  }

  /** The regex matches at `p` with the three given digit runs as groups. */
  lemma {:induction false} MatchAtRuns(s: string, p: nat, e1: nat, e2: nat, e3: nat)
    requires p < e1 < e2 < e3 <= |s| && e1 + 1 < e2 && e2 + 1 < e3
    requires forall k :: p <= k < e1 ==> IsDigit(s[k])
    requires forall k :: e1 + 1 <= k < e2 ==> IsDigit(s[k])
    requires forall k :: e2 + 1 <= k < e3 ==> IsDigit(s[k])
    requires s[e1] == '.' && s[e2] == '.'
    requires e3 == |s| || !IsDigit(s[e3])
    ensures MatchAt(s, p) == Some((DigitsValue(s[p..e1]), DigitsValue(s[e1 + 1..e2]), DigitsValue(s[e2 + 1..e3])))
  {
    DigitRunEndAt(s, p, e1);
    DigitRunEndAt(s, e1 + 1, e2);
    DigitRunEndAt(s, e2 + 1, e3);
  }

  /** The regex cannot start on a character that is not a digit. */
  lemma NoMatchAtNonDigit(s: string, j: nat)
    requires j < |s| && !IsDigit(s[j])
    ensures MatchAt(s, j).None?
  {
    DigitRunEndAt(s, j, j);
  }

  /** A directory name built as `prefix + "a.b.c" + suffix` yields `(a, b, c)`
      when no digit precedes the version and none follows it: the version
      printed into a name is the version read back from it. */
  lemma {:induction false} StripVersionOfName(prefix: string, a: nat, b: nat, c: nat, suffix: string)
    requires forall k :: 0 <= k < |prefix| ==> !IsDigit(prefix[k])
    requires |suffix| == 0 || !IsDigit(suffix[0])
    ensures StripVersion(prefix + FormatNat(a) + "." + FormatNat(b) + "." + FormatNat(c) + suffix) == Some((a, b, c))
  {
    var fa, fb, fc := FormatNat(a), FormatNat(b), FormatNat(c);
    var s := prefix + fa + "." + fb + "." + fc + suffix;
    var p := |prefix|;
    var e1 := p + |fa|;
    var e2 := e1 + 1 + |fb|;
    var e3 := e2 + 1 + |fc|;
    VersionLayout(prefix, fa, fb, fc, suffix);
    StripVersionOfPieces(s, p, e1, e2, e3, a, b, c);
  }

  /** `StripVersionOfRuns` with the runs spelled as formatted numbers. */
  lemma StripVersionOfPieces(s: string, p: nat, e1: nat, e2: nat, e3: nat, a: nat, b: nat, c: nat)
    requires p < e1 < e2 < e3 <= |s| && e1 + 1 < e2 && e2 + 1 < e3
    requires forall k :: 0 <= k < p ==> !IsDigit(s[k])
    requires s[p..e1] == FormatNat(a) && s[e1] == '.' && s[e1 + 1..e2] == FormatNat(b) && s[e2] == '.' && s[e2 + 1..e3] == FormatNat(c)
    requires forall k :: p <= k < e1 ==> IsDigit(s[k])
    requires forall k :: e1 + 1 <= k < e2 ==> IsDigit(s[k])
    requires forall k :: e2 + 1 <= k < e3 ==> IsDigit(s[k])
    requires e3 == |s| || !IsDigit(s[e3])
    ensures StripVersion(s) == Some((a, b, c))
  {
    StripVersionOfRuns(s, p, e1, e2, e3);
  }

  /** Three digit runs after a digit-free start are the leftmost match. */
  lemma StripVersionOfRuns(s: string, p: nat, e1: nat, e2: nat, e3: nat)
    requires p < e1 < e2 < e3 <= |s| && e1 + 1 < e2 && e2 + 1 < e3
    requires forall k :: 0 <= k < p ==> !IsDigit(s[k])
    requires forall k :: p <= k < e1 ==> IsDigit(s[k])
    requires forall k :: e1 + 1 <= k < e2 ==> IsDigit(s[k])
    requires forall k :: e2 + 1 <= k < e3 ==> IsDigit(s[k])
    requires s[e1] == '.' && s[e2] == '.'
    requires e3 == |s| || !IsDigit(s[e3])
    ensures StripVersion(s) == Some((DigitsValue(s[p..e1]), DigitsValue(s[e1 + 1..e2]), DigitsValue(s[e2 + 1..e3])))
  {
    MatchAtRuns(s, p, e1, e2, e3);
    forall j | 0 <= j < p
      ensures MatchAt(s, j).None?
    {
      NoMatchAtNonDigit(s, j);
    }
    StripVersionAt(s, p);
  }

  /** The first position where the regex matches determines `strip_version`. */
  lemma StripVersionAt(s: string, p: nat)
    requires p <= |s| && MatchAt(s, p).Some?
    requires forall j :: 0 <= j < p ==> MatchAt(s, j).None?
    ensures StripVersion(s) == MatchAt(s, p)
  {
    var r := SearchFrom(s, 0);
    assert r.Some?;
    assert r.value == p;
  }

  /** Where the pieces of `prefix + fa + "." + fb + "." + fc + suffix` lie. */
  lemma VersionLayout(prefix: string, fa: string, fb: string, fc: string, suffix: string)
    requires forall k :: 0 <= k < |prefix| ==> !IsDigit(prefix[k])
    requires |suffix| == 0 || !IsDigit(suffix[0])
    requires IsDigits(fa) && IsDigits(fb) && IsDigits(fc)
    ensures var s := prefix + fa + "." + fb + "." + fc + suffix;
            var p := |prefix|;
            var e1 := p + |fa|;
            var e2 := e1 + 1 + |fb|;
            var e3 := e2 + 1 + |fc|;
            && e3 <= |s|
            && (forall k :: 0 <= k < p ==> !IsDigit(s[k]))
            && s[p..e1] == fa && s[e1] == '.' && s[e1 + 1..e2] == fb && s[e2] == '.' && s[e2 + 1..e3] == fc
            && (forall k :: p <= k < e1 ==> IsDigit(s[k]))
            && (forall k :: e1 + 1 <= k < e2 ==> IsDigit(s[k]))
            && (forall k :: e2 + 1 <= k < e3 ==> IsDigit(s[k]))
            && (e3 == |s| || !IsDigit(s[e3]))
  {
    var s := prefix + fa + "." + fb + "." + fc + suffix;
    var p := |prefix|;
    var e1 := p + |fa|;
    var e2 := e1 + 1 + |fb|;
    var e3 := e2 + 1 + |fc|;
    assert s == prefix + fa + ['.'] + fb + ['.'] + fc + suffix;
    assert forall k :: 0 <= k < p ==> s[k] == prefix[k];
    assert forall k :: p <= k < e1 ==> s[k] == fa[k - p];
    assert forall k :: e1 + 1 <= k < e2 ==> s[k] == fb[k - e1 - 1];
    assert forall k :: e2 + 1 <= k < e3 ==> s[k] == fc[k - e2 - 1];
    assert e3 < |s| ==> s[e3] == suffix[0];
  }

  /** Tuple comparison: lexicographic on (major, minor, patch). */
  predicate TripleLe(x: Triple, y: Triple) {
    x.0 < y.0 || (x.0 == y.0 && (x.1 < y.1 || (x.1 == y.1 && x.2 <= y.2)))
  }

  /** The key order of the sort. A path without a version sorts below every
      versioned one, as `None` does among tuples under Python 2. */
  predicate KeyLe(a: Key, b: Key) {
    a.None? || (b.Some? && TripleLe(a.value, b.value))
  }

  /** `KeyLe` is a total order on keys, so sorting by it is well defined. */
  lemma KeyLeTotalOrder(a: Key, b: Key, c: Key)
    ensures KeyLe(a, a)
    ensures KeyLe(a, b) || KeyLe(b, a)
    ensures KeyLe(a, b) && KeyLe(b, a) ==> a == b
    ensures KeyLe(a, b) && KeyLe(b, c) ==> KeyLe(a, c)
  {
  }

  function Last<T>(s: seq<T>): T
    requires |s| > 0
  {
    s[|s| - 1]
  }

  predicate SortedByKey<T>(key: T -> Key, s: seq<T>) {
    forall i, j :: 0 <= i < j < |s| ==> KeyLe(key(s[i]), key(s[j]))
  }

  /** One step of a stable insertion sort: `x`, which comes after every
      element of `s` in the input, is placed after every element whose key is
      not greater than its own. */
  function InsertByKey<T>(key: T -> Key, x: T, s: seq<T>): (r: seq<T>)
    ensures multiset(r) == multiset(s) + multiset{x}
    ensures |r| == |s| + 1
    decreases |s|
  {
    if |s| == 0 then [x]
    else if KeyLe(key(Last(s)), key(x)) then s + [x]
    else
      var init := s[..|s| - 1];
      assert s == init + [Last(s)];
      InsertByKey(key, x, init) + [Last(s)]
  }

  lemma {:induction false} InsertByKeySorted<T>(key: T -> Key, x: T, s: seq<T>)
    requires SortedByKey(key, s)
    ensures SortedByKey(key, InsertByKey(key, x, s))
    decreases |s|
  {
    if |s| == 0 {
    } else if KeyLe(key(Last(s)), key(x)) {
      var r := s + [x];
      forall i, j | 0 <= i < j < |r|
        ensures KeyLe(key(r[i]), key(r[j]))
      {
        if j == |s| {
          KeyLeTotalOrder(key(r[i]), key(Last(s)), key(x));
        }
      }
    } else {
      var init := s[..|s| - 1];
      InsertByKeySorted(key, x, init);
      var front := InsertByKey(key, x, init);
      var r := front + [Last(s)];
      forall i | 0 <= i < |front|
        ensures KeyLe(key(front[i]), key(Last(s)))
      {
        assert front[i] in multiset(front);
        if front[i] == x {
          KeyLeTotalOrder(key(x), key(Last(s)), key(x));
        } else {
          assert front[i] in multiset(init);
          var k :| 0 <= k < |init| && init[k] == front[i];
          assert s[k] == init[k];
        }
      }
      forall i, j | 0 <= i < j < |r|
        ensures KeyLe(key(r[i]), key(r[j]))
      {
        if j < |front| {
          assert r[i] == front[i] && r[j] == front[j];
        }
      }
    }
  }

  /** `sorted(dirs, key=strip_version)`, as a stable insertion sort: the
      result is a permutation of `dirs` ordered by key. */
  function SortByKey<T>(key: T -> Key, dirs: seq<T>): (r: seq<T>)
    ensures multiset(r) == multiset(dirs)
    ensures |r| == |dirs|
    ensures SortedByKey(key, r)
    decreases |dirs|
  {
    if |dirs| == 0 then []
    else
      var init := dirs[..|dirs| - 1];
      assert dirs == init + [Last(dirs)];
      InsertByKeySorted(key, Last(dirs), SortByKey(key, init));
      InsertByKey(key, Last(dirs), SortByKey(key, init))
  }

  /** `k` is the newest entry: no entry has a greater key, and every entry
      after `k` has a strictly smaller one, so among equal maximal keys the
      last one in input order is chosen. */
  predicate IsNewest<T>(key: T -> Key, dirs: seq<T>, k: int) {
    && 0 <= k < |dirs|
    && (forall j :: 0 <= j < |dirs| ==> KeyLe(key(dirs[j]), key(dirs[k])))
    && (forall j :: k < j < |dirs| ==> !KeyLe(key(dirs[k]), key(dirs[j])))
  }

  /** The position of the newest entry, found by a left-to-right scan. */
  function NewestIndex<T>(key: T -> Key, dirs: seq<T>): (k: nat)
    requires |dirs| > 0
    ensures IsNewest(key, dirs, k)
    decreases |dirs|
  {
    if |dirs| == 1 then 0
    else
      var k := NewestIndex(key, dirs[..|dirs| - 1]);
      NewestStep(key, dirs, k);
      if KeyLe(key(dirs[k]), key(Last(dirs))) then |dirs| - 1 else k
  }

  /** Extending the scan by one entry: the new entry takes over when its key
      is at least the newest key so far. */
  lemma NewestStep<T>(key: T -> Key, dirs: seq<T>, k: nat)
    requires |dirs| > 1 && IsNewest(key, dirs[..|dirs| - 1], k)
    ensures KeyLe(key(dirs[k]), key(Last(dirs))) ==> IsNewest(key, dirs, |dirs| - 1)
    ensures !KeyLe(key(dirs[k]), key(Last(dirs))) ==> IsNewest(key, dirs, k)
  {
    var init := dirs[..|dirs| - 1];
    var m := |dirs| - 1;
    assert dirs[k] == init[k];
    forall j | 0 <= j < m
      ensures KeyLe(key(dirs[j]), key(dirs[k]))
      ensures k < j ==> !KeyLe(key(dirs[k]), key(dirs[j]))
    {
      assert dirs[j] == init[j];
    }
    if KeyLe(key(dirs[k]), key(dirs[m])) {
      forall j | 0 <= j < |dirs|
        ensures KeyLe(key(dirs[j]), key(dirs[m]))
      {
        KeyLeTotalOrder(key(dirs[j]), key(dirs[k]), key(dirs[m]));
      }
    } else {
      KeyLeTotalOrder(key(dirs[m]), key(dirs[k]), key(dirs[m]));
    }
  }

  /** At most one position is the newest. */
  lemma NewestIsUnique<T>(key: T -> Key, dirs: seq<T>, k1: int, k2: int)
    requires IsNewest(key, dirs, k1) && IsNewest(key, dirs, k2)
    ensures k1 == k2
  {
    var key1, key2 := key(dirs[k1]), key(dirs[k2]);
    assert KeyLe(key1, key2) && KeyLe(key2, key1);
  }

  /** The last element of the stable sort is the newest entry: the one with
      the greatest key, the latest in input order among equals. */
  lemma {:induction false} SortByKeyLast<T>(key: T -> Key, dirs: seq<T>)
    requires |dirs| > 0
    ensures IsNewest(key, dirs, NewestIndex(key, dirs))
    ensures Last(SortByKey(key, dirs)) == dirs[NewestIndex(key, dirs)]
    decreases |dirs|
  {
    if |dirs| > 1 {
      var init := dirs[..|dirs| - 1];
      SortByKeyLast(key, init);
      assert dirs[NewestIndex(key, init)] == init[NewestIndex(key, init)];
    }
  }
}
