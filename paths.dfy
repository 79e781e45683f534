/** The '/'-separated path strings that `GetRelativePath` produces with
    `string.Join("/", ...)` and that `Transform.Find` takes apart again. */
module Paths {

  const Separator: char := '/'

  /** A name that can stand as one component of a path. */
  predicate PlainName(name: string)
  {
    Separator !in name
  }

  predicate AllPlain(names: seq<string>)
  {
    forall i :: 0 <= i < |names| ==> PlainName(names[i])
  }

  /** `string.Join("/", names)`. */
  function Join(names: seq<string>): string
  {
    if |names| == 0 then ""
    else if |names| == 1 then names[0]
    else names[0] + [Separator] + Join(names[1..])
  }

  /** Position of the first separator in `s`, or `|s|` when there is none. */
  function IndexOfSeparator(s: string): (k: nat)
    ensures k <= |s|
    ensures k < |s| ==> s[k] == Separator
    ensures forall j :: 0 <= j < k ==> s[j] != Separator
  {
    if s == [] then 0
    else if s[0] == Separator then 0
    else 1 + IndexOfSeparator(s[1..])
  }

  /** `s.Split('/')`: the pieces between separators; never empty. */
  function Split(s: string): (pieces: seq<string>)
    ensures |pieces| >= 1
    decreases |s|
  {
    var k := IndexOfSeparator(s);
    if k == |s| then [s] else [s[..k]] + Split(s[k + 1..])
  }

  /** Joining at least two names always yields a non-empty string. */
  lemma JoinNonEmpty(names: seq<string>)
    requires |names| >= 2
    ensures Join(names) != ""
  {
    assert |Join(names)| >= 1;
  }

  /** A plain name splits to itself. */
  lemma SplitPlain(name: string)
    requires PlainName(name)
    ensures Split(name) == [name]
  {
    assert IndexOfSeparator(name) == |name| by {
      assert forall j :: 0 <= j < |name| ==> name[j] != Separator;
    }
  }

  /** Splitting stops at the separator after a plain first name. */
  lemma SplitCons(head: string, rest: string)
    requires PlainName(head)
    ensures Split(head + [Separator] + rest) == [head] + Split(rest)
  {
    var s := head + [Separator] + rest;
    assert IndexOfSeparator(s) == |head| by {
      assert s[|head|] == Separator;
      assert forall j :: 0 <= j < |head| ==> s[j] == head[j] && head[j] != Separator;
    }
    assert s[..|head|] == head;
    assert s[|head| + 1..] == rest;
  }

  /** Splitting a joined path gives the names back, provided no name holds a
      separator. (An empty list is the one list whose join splits to `[""]`.) */
  lemma {:induction false} SplitJoin(names: seq<string>)
    requires |names| >= 1 && AllPlain(names)
    ensures Split(Join(names)) == names
  {
    var head := names[0];
    if |names| == 1 {
      SplitPlain(head);
    } else {
      SplitCons(head, Join(names[1..]));
      assert AllPlain(names[1..]) by {
        forall i | 0 <= i < |names[1..]| ensures PlainName(names[1..][i]) {
          assert names[1..][i] == names[i + 1];
        }
      }
      SplitJoin(names[1..]);
      assert names == [head] + names[1..];
    }
  }
}
