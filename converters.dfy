/** The Room type converters that store a participant list as one column:
    `fromStringList` joins with commas, `toStringList` splits on commas and
    drops blank pieces. */
module Converters {
  import opened Strings
  import opened Model

  /** `joinToString(",")`. */
  function Join(xs: seq<string>): (r: string)
    ensures xs == [] ==> r == ""
    ensures |xs| == 1 ==> r == xs[0]
  {
    if |xs| == 0 then ""
    else if |xs| == 1 then xs[0]
    else xs[0] + "," + Join(xs[1..])
  }

  /** The joined text starts with the first element and ends with the last. */
  lemma {:induction false} JoinEnds(xs: seq<string>)
    requires |xs| >= 1
    ensures |Join(xs)| >= |xs[0]| && Join(xs)[..|xs[0]|] == xs[0]
    ensures |Join(xs)| >= |xs[|xs| - 1]| && Join(xs)[|Join(xs)| - |xs[|xs| - 1]|..] == xs[|xs| - 1]
  {
    if |xs| > 1 {
      JoinEnds(xs[1..]);
      var tail := Join(xs[1..]);
      assert Join(xs) == xs[0] + "," + tail;
      assert xs[1..][|xs[1..]| - 1] == xs[|xs| - 1];
    }
  }

  /** `split(",")`: the pieces between the commas, from left to right; there
      is always one more piece than there are commas. */
  function Split(s: string): (r: seq<string>)
    ensures |r| >= 1
    ensures forall i :: 0 <= i < |r| ==> ',' !in r[i]
  {
    if s == [] then [""]
    else
      var rest := Split(s[1..]);
      if s[0] == ',' then [""] + rest else [[s[0]] + rest[0]] + rest[1..]
  }

  /** `filter { it.isNotBlank() }`. */
  function NonBlank(xs: seq<string>): (r: seq<string>)
    ensures |r| <= |xs| && IsSubsequence(r, xs)
    ensures forall x :: x in r <==> x in xs && !IsBlank(x)
    ensures forall x :: multiset(r)[x] == if IsBlank(x) then 0 else multiset(xs)[x]
  {
    if xs == [] then []
    else
      var rest := NonBlank(xs[1..]);
      assert xs == [xs[0]] + xs[1..];
      assert multiset(xs) == multiset{xs[0]} + multiset(xs[1..]);
      if IsBlank(xs[0]) then rest
      else
        assert multiset([xs[0]] + rest) == multiset{xs[0]} + multiset(rest);
        [xs[0]] + rest
  }

  /** `Converters.fromStringList`. */
  function FromStringList(value: seq<string>): (column: string)
    ensures value == [] ==> column == ""
    ensures |value| == 1 ==> column == value[0]
  {
    Join(value)
  }

  /** `Converters.toStringList`. */
  function ToStringList(value: string): (r: seq<string>)
    ensures forall i :: 0 <= i < |r| ==> !IsBlank(r[i]) && ',' !in r[i]
  {
    NonBlank(Split(value))
  }

  /** An element the codec carries unchanged: not blank and free of commas. */
  predicate Storable(x: string) {
    !IsBlank(x) && ',' !in x
  }

  lemma ToStringListOfEmpty()
    ensures ToStringList("") == []
  {
  }

  lemma {:induction false} SplitWithoutComma(p: string)
    requires ',' !in p
    ensures Split(p) == [p]
  {
    if p != [] {
      assert p[0] in p;
      assert forall c :: c in p[1..] ==> c in p;
      SplitWithoutComma(p[1..]);
      assert [p[0]] + p[1..] == p;
    }
  }

  /** Splitting at the first comma peels off the piece before it. */
  lemma {:induction false} SplitAtFirstComma(p: string, rest: string)
    requires ',' !in p
    ensures Split(p + "," + rest) == [p] + Split(rest)
  {
    if p == [] {
      assert p + "," + rest == [','] + rest;
      assert (p + "," + rest)[1..] == rest;
    } else {
      SplitAtFirstComma(p[1..], rest);
      assert (p + "," + rest)[1..] == p[1..] + "," + rest;
      assert [p[0]] + p[1..] == p;
    }
  }

  /** Splitting the join of at least one comma-free piece gives the pieces back. */
  lemma {:induction false} SplitOfJoin(xs: seq<string>)
    requires |xs| >= 1
    requires forall i :: 0 <= i < |xs| ==> ',' !in xs[i]
    ensures Split(Join(xs)) == xs
  {
    if |xs| == 1 {
      SplitWithoutComma(xs[0]);
    } else {
      SplitOfJoin(xs[1..]);
      SplitAtFirstComma(xs[0], Join(xs[1..]));
      assert [xs[0]] + xs[1..] == xs;
    }
  }

  /** Joining the pieces of a split gives the text back. */
  lemma {:induction false} JoinOfSplit(s: string)
    ensures Join(Split(s)) == s
  {
    if s != [] {
      var rest := Split(s[1..]);
      JoinOfSplit(s[1..]);
      if s[0] == ',' {
        assert Split(s) == [""] + rest;
        JoinCons("", rest);
      } else if |rest| == 1 {
        assert Split(s) == [[s[0]] + rest[0]];
      } else {
        assert Split(s) == [[s[0]] + rest[0]] + rest[1..];
        JoinFront(s[0], rest);
      }
      assert s == [s[0]] + s[1..];
    }
  }

  /** Gluing character c to the first of at least two pieces glues it to
      the front of their join. */
  lemma JoinFront(c: char, rest: seq<string>)
    requires |rest| >= 2
    ensures Join([[c] + rest[0]] + rest[1..]) == [c] + Join(rest)
  {
    var glued := [[c] + rest[0]] + rest[1..];
    var tail := Join(rest[1..]);
    assert glued[1..] == rest[1..];
    assert Join(glued) == ([c] + rest[0]) + "," + tail;
    assert Join(rest) == rest[0] + "," + tail;
    GlueFirst(c, rest[0], tail);
  }

  /** Concatenation regroups around the first piece. */
  lemma GlueFirst(c: char, first: string, tail: string)
    ensures ([c] + first) + "," + tail == [c] + (first + "," + tail)
  {
  }

  /** Joining x in front of a non-empty list puts a comma between them. */
  lemma JoinCons(x: string, xs: seq<string>)
    requires xs != []
    ensures Join([x] + xs) == x + "," + Join(xs)
  {
    assert ([x] + xs)[1..] == xs;
  }

  lemma {:induction false} NonBlankKeepsNonBlank(xs: seq<string>)
    requires forall i :: 0 <= i < |xs| ==> !IsBlank(xs[i])
    ensures NonBlank(xs) == xs
  {
    if xs != [] {
      NonBlankKeepsNonBlank(xs[1..]);
      assert [xs[0]] + xs[1..] == xs;
    }
  }

  /** Round trip: a list of storable elements survives being stored. */
  lemma RoundTrip(xs: seq<string>)
    requires forall i :: 0 <= i < |xs| ==> Storable(xs[i])
    ensures ToStringList(FromStringList(xs)) == xs
  {
    if xs == [] {
      assert Split("") == [""];
      assert IsBlank("");
    } else {
      SplitOfJoin(xs);
      NonBlankKeepsNonBlank(xs);
    }
  }

  /** Normalising twice is normalising once. */
  lemma Idempotent(s: string)
    ensures ToStringList(FromStringList(ToStringList(s))) == ToStringList(s)
  {
    var xs := ToStringList(s);
    RoundTrip(xs);
  }
}
