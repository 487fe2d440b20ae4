/** String operations of Python's `str` that the request path handling relies on:
    `split` on a one-character separator, dropping empty parts, `startswith`,
    `endswith` and slicing past the end. */
module Text {

  /** `s.split(sep)`: the maximal runs of characters between separators, in order,
      empty runs included (so `"/a//b".split('/')` is `["", "a", "", "b"]`). */
  function Split(s: string, sep: char): (parts: seq<string>)
    ensures |parts| >= 1
    ensures sep !in s ==> parts == [s]
    decreases |s|
  {
    if s == [] then [""]
    else
      var rest := Split(s[1..], sep);
      assert s == [s[0]] + s[1..];
      if s[0] == sep then [""] + rest
      else [[s[0]] + rest[0]] + rest[1..]
  }

  /** The text before the first `c`, or all of `s` when it has none. */
  function Before(s: string, c: char): (r: string)
    ensures r <= s && c !in r
    ensures c in s ==> |r| < |s| && s[|r|] == c
  {
    if s == [] || s[0] == c then ""
    else
      assert s == [s[0]] + s[1..];
      [s[0]] + Before(s[1..], c)
  }

  /** `sep.join(parts)`: the inverse of Split. */
  function JoinWith(parts: seq<string>, sep: char): string
  {
    if parts == [] then ""
    else if |parts| == 1 then parts[0]
    else parts[0] + [sep] + JoinWith(parts[1..], sep)
  }

  /** One unfolding of Split on a string with a known first character. */
  lemma SplitCons(c: char, t: string, sep: char)
    ensures Split([c] + t, sep) == if c == sep then [""] + Split(t, sep)
                                   else [[c] + Split(t, sep)[0]] + Split(t, sep)[1..]
  {
    assert ([c] + t)[1..] == t;
  }

  /** One unfolding of Split on a non-empty string, with the rest named. */
  lemma SplitUnfold(s: string, rest: string, sep: char)
    requires s != [] && rest == s[1..]
    ensures Split(s, sep) == if s[0] == sep then [""] + Split(rest, sep)
                             else [[s[0]] + Split(rest, sep)[0]] + Split(rest, sep)[1..]
  {
  }

  lemma SplitAtSeparatorStep(x: string, y: string, sep: char)
    requires x != []
    requires Split(x[1..] + [sep] + y, sep) == Split(x[1..], sep) + Split(y, sep)
    ensures Split(x + [sep] + y, sep) == Split(x, sep) + Split(y, sep)
  {
    var T, Y := Split(x[1..], sep), Split(y, sep);
    SplitUnfold(x + [sep] + y, x[1..] + [sep] + y, sep);
    SplitUnfold(x, x[1..], sep);
    if x[0] == sep {
      ConsEmptyPart(T, Y);
    } else {
      ConsFirstPart(x[0], T, Y);
    }
  }

  /** Prepending an empty part commutes with appending more parts. */
  lemma ConsEmptyPart(T: seq<string>, Y: seq<string>)
    ensures [""] + (T + Y) == ([""] + T) + Y
  {
  }

  /** Extending the first part commutes with appending more parts. */
  lemma ConsFirstPart(c: char, T: seq<string>, Y: seq<string>)
    requires |T| >= 1
    ensures [[c] + (T + Y)[0]] + (T + Y)[1..] == ([[c] + T[0]] + T[1..]) + Y
  {
    assert (T + Y)[1..] == T[1..] + Y;
  }

  /** Splitting at a separator splits the two sides independently. */
  lemma {:induction false} SplitAtSeparator(x: string, y: string, sep: char)
    ensures Split(x + [sep] + y, sep) == Split(x, sep) + Split(y, sep)
    decreases |x|
  {
    if x == [] {
      assert x + [sep] + y == [sep] + y;
      SplitCons(sep, y, sep);
    } else {
      SplitAtSeparator(x[1..], y, sep);
      SplitAtSeparatorStep(x, y, sep);
    }
  }

  /** Split is undone by joining the parts with the separator. */
  lemma {:induction false} SplitJoin(s: string, sep: char)
    ensures JoinWith(Split(s, sep), sep) == s
    decreases |s|
  {
    if s != [] {
      var c, t := s[0], s[1..];
      assert s == [c] + t;
      SplitCons(c, t, sep);
      SplitJoin(t, sep);
      var T := Split(t, sep);
      if c == sep {
        assert ([""] + T)[1..] == T;
      } else {
        var parts := [[c] + T[0]] + T[1..];
        assert parts[1..] == T[1..];
      }
    }
  }

  /** The first part is the text before the first separator, and there is more
      than one part exactly when the separator occurs. */
  lemma {:induction false} SplitFirst(s: string, sep: char)
    ensures Split(s, sep)[0] == Before(s, sep)
    ensures |Split(s, sep)| >= 2 <==> sep in s
    decreases |s|
  {
    if s != [] {
      var c, t := s[0], s[1..];
      assert s == [c] + t;
      SplitCons(c, t, sep);
      SplitFirst(t, sep);
    }
  }

  /** The parts hold no separator and only characters of the string split. */
  lemma {:induction false} SplitPartChars(s: string, sep: char)
    ensures forall i, c :: 0 <= i < |Split(s, sep)| && c in Split(s, sep)[i] ==> c in s && c != sep
    decreases |s|
  {
    if s != [] {
      var c0, t := s[0], s[1..];
      assert s == [c0] + t;
      SplitCons(c0, t, sep);
      SplitPartChars(t, sep);
      var T := Split(t, sep);
      forall i, c | 0 <= i < |Split(s, sep)| && c in Split(s, sep)[i]
        ensures c in s && c != sep
      {
        if c0 == sep {
          if i > 0 {
            assert Split(s, sep)[i] == T[i - 1];
          }
        } else if i == 0 {
          assert c == c0 || c in T[0];
        } else {
          assert Split(s, sep)[i] == T[i];
        }
      }
    }
  }

  /** Split undoes JoinWith when no part holds the separator. */
  lemma {:induction false} SplitJoinWith(parts: seq<string>, sep: char)
    requires |parts| >= 1
    requires forall i :: 0 <= i < |parts| ==> sep !in parts[i]
    ensures Split(JoinWith(parts, sep), sep) == parts
  {
    if |parts| > 1 {
      SplitJoinWith(parts[1..], sep);
      SplitAtSeparator(parts[0], JoinWith(parts[1..], sep), sep);
      assert parts == [parts[0]] + parts[1..];
    }
  }

  /** The first part of a split is the text before the first separator. */
  lemma SplitHead(x: string, y: string, sep: char)
    requires sep !in x
    ensures |Split(x + [sep] + y, sep)| >= 2
    ensures Split(x + [sep] + y, sep)[0] == x
  {
    SplitAtSeparator(x, y, sep);
  }

  /** The text before the first `c` of `x + [c] + y` is `x` when `x` has none. */
  lemma BeforeSeparator(x: string, y: string, c: char)
    requires c !in x
    ensures Before(x + [c] + y, c) == x
  {
    SplitHead(x, y, c);
    SplitFirst(x + [c] + y, c);
  }

  /** The list comprehension `[x for x in parts if x]`. */
  function NonEmpty(parts: seq<string>): (kept: seq<string>)
    ensures forall i :: 0 <= i < |kept| ==> kept[i] != "" && kept[i] in parts
    ensures forall p :: p in parts && p != "" ==> p in kept
  {
    if parts == [] then []
    else if parts[0] == "" then NonEmpty(parts[1..])
    else [parts[0]] + NonEmpty(parts[1..])
  }

  lemma {:induction false} NonEmptyConcat(a: seq<string>, b: seq<string>)
    ensures NonEmpty(a + b) == NonEmpty(a) + NonEmpty(b)
  {
    if a != [] {
      assert (a + b)[0] == a[0] && (a + b)[1..] == a[1..] + b;
      NonEmptyConcat(a[1..], b);
    } else {
      assert a + b == b;
    }
  }

  lemma {:induction false} NonEmptyKeepsNames(parts: seq<string>)
    requires forall i :: 0 <= i < |parts| ==> parts[i] != ""
    ensures NonEmpty(parts) == parts
  {
    if parts != [] {
      NonEmptyKeepsNames(parts[1..]);
      assert parts == [parts[0]] + parts[1..];
    }
  }

  /** The non-empty `/`-separated segments of a path, in order. */
  function Segments(path: string): seq<string>
  {
    NonEmpty(Split(path, '/'))
  }

  /** Every segment is a non-empty piece of the path without a `/`. */
  lemma SegmentsAreNames(path: string)
    ensures forall i :: 0 <= i < |Segments(path)| ==>
              Segments(path)[i] != "" && '/' !in Segments(path)[i]
    ensures forall i, c :: 0 <= i < |Segments(path)| && c in Segments(path)[i] ==> c in path
  {
    var parts := Split(path, '/');
    SplitPartChars(path, '/');
    forall i | 0 <= i < |Segments(path)|
      ensures '/' !in Segments(path)[i]
      ensures forall c :: c in Segments(path)[i] ==> c in path
    {
      var k :| 0 <= k < |parts| && parts[k] == Segments(path)[i];
    }
  }

  /** Segments of a path with a slash in it are those on either side: this is
      why repeated slashes make no difference. */
  lemma SegmentsAtSlash(x: string, y: string)
    ensures Segments(x + "/" + y) == Segments(x) + Segments(y)
  {
    SplitAtSeparator(x, y, '/');
    NonEmptyConcat(Split(x, '/'), Split(y, '/'));
  }

  /** The segments of an absolute path made of names are those names. */
  lemma SegmentsOfAbsolute(names: seq<string>)
    requires |names| >= 1
    requires forall i :: 0 <= i < |names| ==> names[i] != "" && '/' !in names[i]
    ensures Segments("/" + JoinWith(names, '/')) == names
  {
    var joined := JoinWith(names, '/');
    assert "/" + joined == "" + "/" + joined;
    SegmentsAtSlash("", joined);
    SplitJoinWith(names, '/');
    NonEmptyKeepsNames(names);
    assert Segments("") == [] by {
      assert Split("", '/') == [""];
    }
  }

  /** A name without a slash is one segment, or none when it is empty. */
  lemma SegmentsOfName(x: string)
    requires '/' !in x
    ensures Segments(x) == if x == "" then [] else [x]
  {
    assert Split(x, '/') == [x];
    assert [x][1..] == [];
    assert NonEmpty([x]) == (if x == "" then [] else [x]) + NonEmpty([]);
  }

  predicate StartsWith(s: string, prefix: string)
  {
    |prefix| <= |s| && s[..|prefix|] == prefix
  }

  predicate EndsWith(s: string, suffix: string)
  {
    |suffix| <= |s| && s[|s| - |suffix|..] == suffix
  }

  /** `s[k:]` for k >= 0: empty when k is past the end. */
  function SliceFrom(s: string, k: nat): (r: string)
    ensures k <= |s| ==> |r| == |s| - k
    ensures k > |s| ==> r == ""
  {
    if k <= |s| then s[k..] else ""
  }
}
