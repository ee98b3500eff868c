/** Python's `",".join(parts)` and its inverse `s.split(",")`. */
module CommaText {

  /** `",".join(parts)`. */
  function CommaJoin(parts: seq<string>): (s: string)
    ensures |parts| >= 1 ==> |parts[0]| <= |s| && s[..|parts[0]|] == parts[0]
    ensures |parts| >= 2 ==> |parts[0]| < |s| && s[|parts[0]|] == ','
    ensures |parts| >= 1 && CommaFree(parts) ==> multiset(s)[','] == |parts| - 1
  {
    if |parts| == 0 then ""
    else if |parts| == 1 then parts[0]
    else parts[0] + "," + CommaJoin(parts[1..])
  }

  /** `s.split(",")`: the pieces between commas, never an empty list. */
  function CommaSplit(s: string): (r: seq<string>)
    ensures |r| >= 1
  {
    if |s| == 0 then [""]
    else
      var rest := CommaSplit(s[1..]);
      if s[0] == ',' then [""] + rest
      else [[s[0]] + rest[0]] + rest[1..]
  }

  /** No part of the list contains a comma. */
  predicate CommaFree(parts: seq<string>)
  {
    forall j :: 0 <= j < |parts| ==> ',' !in parts[j]
  }

  lemma {:induction false} SplitWithoutComma(p: string)
    requires ',' !in p
    ensures CommaSplit(p) == [p]
  {
    if |p| > 0 {
      assert p[1..] + [] == p[1..];
      SplitWithoutComma(p[1..]);
      assert [p[0]] + p[1..] == p;
    }
  }

  lemma {:induction false} SplitAfterPart(p: string, t: string)
    requires ',' !in p
    ensures CommaSplit(p + "," + t) == [p] + CommaSplit(t)
  {
    if |p| == 0 {
      assert p + "," + t == [','] + t;
      assert ([','] + t)[1..] == t;
    } else {
      var s := p + "," + t;
      assert s[0] == p[0];
      assert s[1..] == p[1..] + "," + t;
      SplitAfterPart(p[1..], t);
      assert [p[0]] + p[1..] == p;
    }
  }

  /** Splitting a join gives back the parts, when there is at least one and none holds a comma. */
  lemma {:induction false} SplitJoin(parts: seq<string>)
    requires |parts| >= 1 && CommaFree(parts)
    ensures CommaSplit(CommaJoin(parts)) == parts
  {
    if |parts| == 1 {
      SplitWithoutComma(parts[0]);
    } else {
      assert CommaFree(parts[1..]) by {
        forall j | 0 <= j < |parts[1..]| ensures ',' !in parts[1..][j] {
          assert parts[1..][j] == parts[j + 1];
        }
      }
      SplitJoin(parts[1..]);
      assert ',' !in parts[0];
      SplitAfterPart(parts[0], CommaJoin(parts[1..]));
      assert [parts[0]] + parts[1..] == parts;
    }
  }
}
