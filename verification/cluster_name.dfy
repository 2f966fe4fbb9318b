/** `generate_cluster_name`: six draws from `string.ascii_letters`. The draws
    of `random.choice` are an input: `picks[i]` is the index the i-th draw
    returned. */
module ClusterName {

  const NameLength: nat := 6

  /** `n` consecutive characters starting at `first`. */
  function CharRange(first: char, n: nat): (s: string)
    requires first as int + n <= 0xD800
    ensures |s| == n
    ensures forall i :: 0 <= i < n ==> s[i] == (first as int + i) as char
  {
    if n == 0 then [] else CharRange(first, n - 1) + [(first as int + n - 1) as char]
  }

  /** `string.ascii_letters`: the 26 lower-case letters, then the 26
      upper-case ones. */
  const AsciiLetters: string := CharRange('a', 26) + CharRange('A', 26)

  predicate IsAsciiLetter(c: char) {
    'a' <= c <= 'z' || 'A' <= c <= 'Z'
  }

  predicate IsClusterName(name: string) {
    |name| == NameLength && forall i :: 0 <= i < |name| ==> IsAsciiLetter(name[i])
  }

  /** Six draws, each an index into `AsciiLetters`. */
  predicate ValidPicks(picks: seq<nat>) {
    |picks| == NameLength && forall i :: 0 <= i < |picks| ==> picks[i] < |AsciiLetters|
  }

  function GenerateClusterName(picks: seq<nat>): (name: string)
    requires ValidPicks(picks)
    ensures IsClusterName(name)
  {
    seq(NameLength, i requires 0 <= i < NameLength => AsciiLetters[picks[i]])
  }

  /** The position of a letter in `AsciiLetters`. */
  function LetterIndex(c: char): (k: nat)
    requires IsAsciiLetter(c)
    ensures k < |AsciiLetters| && AsciiLetters[k] == c
  {
    if 'a' <= c <= 'z' then c as int - 'a' as int else 26 + (c as int - 'A' as int)
  }

  /** The draws that produce a given name. */
  function PicksOf(name: string): (picks: seq<nat>)
    requires IsClusterName(name)
    ensures ValidPicks(picks)
  {
    seq(NameLength, i requires 0 <= i < NameLength => LetterIndex(name[i]))
  }

  /** Every six-letter ASCII name is a possible result: the generator covers
      exactly the names `IsClusterName` describes. */
  lemma GenerateCoversEveryName(name: string)
    requires IsClusterName(name)
    ensures GenerateClusterName(PicksOf(name)) == name
  {
  }

  /** Different draws give different names, so the name determines the
      draws. */
  lemma PicksOfGenerate(picks: seq<nat>)
    requires ValidPicks(picks)
    ensures PicksOf(GenerateClusterName(picks)) == picks
  {
    var name := GenerateClusterName(picks);
    forall i | 0 <= i < NameLength
      ensures LetterIndex(name[i]) == picks[i]
    {
      LetterIndexOf(picks[i]);
    }
  }

  lemma LetterIndexOf(k: nat)
    requires k < |AsciiLetters|
    ensures IsAsciiLetter(AsciiLetters[k]) && LetterIndex(AsciiLetters[k]) == k
  {
  }
}
