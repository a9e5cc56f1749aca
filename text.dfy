/** String operations of Python's `str` that the parsers rely on. */
module Text {

  /** The index of the first character of `s` at or after `from` that is in `stops`,
      or `|s|` when there is none (`str.find` with several needles, "not found" as `|s|`). */
  function FirstOf(s: string, stops: set<char>, from: nat): (k: nat)
    requires from <= |s|
    ensures from <= k <= |s|
    ensures forall i :: from <= i < k ==> s[i] !in stops
    ensures k < |s| ==> s[k] in stops
    decreases |s| - from
  {
    if from == |s| then |s|
    else if s[from] in stops then from
    else FirstOf(s, stops, from + 1)
  }

  /** The index of the last occurrence of `c` in `s`, which must occur (`str.rfind`). */
  function LastIndex(s: string, c: char): (k: nat)
    requires c in s
    ensures k < |s| && s[k] == c
    ensures forall i :: k < i < |s| ==> s[i] != c
  {
    if s[|s| - 1] == c then |s| - 1 else LastIndex(s[..|s| - 1], c)
  }

  /** Python's `s.split(sep)` for a one-character separator. */
  function Split(s: string, sep: char): (parts: seq<string>)
    ensures |parts| >= 1
    ensures forall p :: p in parts ==> sep !in p
    decreases |s|
  {
    var k := FirstOf(s, {sep}, 0);
    if k == |s| then [s] else [s[..k]] + Split(s[k + 1..], sep)
  }

  /** Python's `sep.join(parts)`. */
  function Join(parts: seq<string>, sep: char): string
    requires |parts| >= 1
  {
    if |parts| == 1 then parts[0] else parts[0] + [sep] + Join(parts[1..], sep)
  }

  /** Splitting undoes joining when no part contains the separator. */
  lemma {:induction false} SplitJoin(parts: seq<string>, sep: char)
    requires |parts| >= 1
    requires forall p :: p in parts ==> sep !in p
    ensures Split(Join(parts, sep), sep) == parts
  {
    if |parts| == 1 {
      NoSepFirstOf(parts[0], sep);
    } else {
      var s := Join(parts, sep);
      var head := parts[0];
      assert s == head + [sep] + Join(parts[1..], sep);
      assert sep !in head;
      assert forall i :: 0 <= i < |head| ==> s[i] == head[i] && head[i] != sep;
      assert s[|head|] == sep;
      FirstOfIsFirst(s, sep, |head|);
      assert s[..|head|] == head;
      assert s[|head| + 1..] == Join(parts[1..], sep);
      SplitJoin(parts[1..], sep);
    }
  }

  /** Joining undoes splitting. */
  lemma {:induction false} JoinSplit(s: string, sep: char)
    ensures Join(Split(s, sep), sep) == s
    decreases |s|
  {
    var k := FirstOf(s, {sep}, 0);
    if k < |s| {
      JoinSplit(s[k + 1..], sep);
      assert Split(s, sep) == [s[..k]] + Split(s[k + 1..], sep);
      assert s == s[..k] + [sep] + s[k + 1..];
    }
  }

  lemma NoSepFirstOf(s: string, sep: char)
    requires sep !in s
    ensures FirstOf(s, {sep}, 0) == |s|
  {
  }

  lemma FirstOfIsFirst(s: string, sep: char, k: nat)
    requires k < |s| && s[k] == sep
    requires forall i :: 0 <= i < k ==> s[i] != sep
    ensures FirstOf(s, {sep}, 0) == k
  {
  }

  /** `FirstOf` is determined by its postcondition. */
  lemma {:induction false} FirstOfAt(s: string, stops: set<char>, from: nat, k: nat)
    requires from <= k <= |s|
    requires forall i :: from <= i < k ==> s[i] !in stops
    requires k < |s| ==> s[k] in stops
    ensures FirstOf(s, stops, from) == k
    decreases k - from
  {
    if from < k {
      FirstOfAt(s, stops, from + 1, k);
    }
  }
}
