/**
 * The text forms of the contacts list: the form shows an array joined with
 * `", "`, and the submit handler splits the field on `","` and trims each piece.
 */
module FormText {
  import opened Js

  const SpaceCodes: set<int> :=
    {0x09, 0x0A, 0x0B, 0x0C, 0x0D, 0x20, 0xA0, 0x1680,
     0x2000, 0x2001, 0x2002, 0x2003, 0x2004, 0x2005, 0x2006, 0x2007, 0x2008, 0x2009, 0x200A,
     0x2028, 0x2029, 0x202F, 0x205F, 0x3000, 0xFEFF}

  /** ECMAScript WhiteSpace and LineTerminator code points, which `trim` removes. */
  predicate IsSpace(c: char)
  {
    c as int in SpaceCodes
  }

  /** A string `trim` leaves unchanged: it neither starts nor ends with white space. */
  predicate Trimmed(s: string)
  {
    s == [] || (!IsSpace(s[0]) && !IsSpace(s[|s| - 1]))
  }

  /** Drops leading white space. */
  function TrimStart(s: string): (r: string)
    ensures |r| <= |s| && r == s[|s| - |r|..]
    ensures forall k :: 0 <= k < |s| - |r| ==> IsSpace(s[k])
    ensures r == [] || !IsSpace(r[0])
  {
    if s != [] && IsSpace(s[0]) then TrimStart(s[1..]) else s
  }

  /** Drops trailing white space. */
  function TrimEnd(s: string): (r: string)
    ensures |r| <= |s| && r == s[..|r|]
    ensures forall k :: |r| <= k < |s| ==> IsSpace(s[k])
    ensures r == [] || !IsSpace(r[|r| - 1])
  {
    if s != [] && IsSpace(s[|s| - 1]) then TrimEnd(s[..|s| - 1]) else s
  }

  /** `s.trim()`: white space removed from both ends, and a trimmed string left as it is. */
  function Trim(s: string): (r: string)
    ensures Trimmed(r) && |r| <= |s|
    ensures Trimmed(s) ==> r == s
  {
    TrimEnd(TrimStart(s))
  }

  lemma TrimDropsLeadingSpace(s: string)
    requires Trimmed(s)
    ensures Trim(" " + s) == s
  {
    assert (" " + s)[1..] == s;
  }

  /** `arr.join(sep)`. */
  function Join(xs: seq<string>, sep: string): (r: string)
    ensures |xs| == 0 ==> r == ""
  {
    if |xs| == 0 then ""
    else if |xs| == 1 then xs[0]
    else xs[0] + sep + Join(xs[1..], sep)
  }

  /** A joined list starts with its first element. */
  lemma {:induction false} JoinStartsWithFirst(xs: seq<string>, sep: string)
    requires |xs| >= 1
    ensures |xs[0]| <= |Join(xs, sep)| && Join(xs, sep)[..|xs[0]|] == xs[0]
  {
    if |xs| > 1 {
      var rest := sep + Join(xs[1..], sep);
      assert Join(xs, sep) == xs[0] + rest;
      assert (xs[0] + rest)[..|xs[0]|] == xs[0];
    }
  }

  /**
   * `s.split(",")`: the pieces between commas, at least one, none containing a
   * comma; joining them with `","` gives `s` back.
   */
  function Split(s: string): (r: seq<string>)
    ensures |r| >= 1
    ensures forall k :: 0 <= k < |r| ==> ',' !in r[k]
    ensures Join(r, ",") == s
  {
    if s == [] then [""]
    else
      var rest := Split(s[1..]);
      if s[0] == ',' then
        assert ([""] + rest)[1..] == rest;
        [""] + rest
      else
        var r := [[s[0]] + rest[0]] + rest[1..];
        assert r[1..] == rest[1..];
        assert s == [s[0]] + s[1..];
        r
  }

  /** `s.split(",").map(item => item.trim())`. */
  function SplitTrim(s: string): (r: seq<string>)
    ensures |r| == |Split(s)|
    ensures forall k :: 0 <= k < |r| ==> Trimmed(r[k])
  {
    TrimAll(Split(s))
  }

  /** `pieces.map(item => item.trim())`. */
  function TrimAll(pieces: seq<string>): (r: seq<string>)
    ensures |r| == |pieces|
    ensures forall k :: 0 <= k < |r| ==> Trimmed(r[k])
  {
    seq(|pieces|, k requires 0 <= k < |pieces| => Trim(pieces[k]))
  }

  /**
   * The text a form field shows for a record property: falsy values show as
   * the empty string, an array is joined with `", "`.
   */
  function FieldText(v: Value): (r: string)
    ensures !Truthy(v) ==> r == ""
  {
    match v
    case Str(s) => s
    case List(xs) => Join(xs, ", ")
    case _ => ""
  }

  /** Splitting text that starts with a comma-free prefix extends the first piece by that prefix. */
  lemma {:induction false} SplitPrefix(p: string, t: string)
    requires ',' !in p
    ensures Split(p + t) == [p + Split(t)[0]] + Split(t)[1..]
  {
    if p == [] {
      assert p + t == t;
      assert Split(t) == [Split(t)[0]] + Split(t)[1..];
      assert p + Split(t)[0] == Split(t)[0];
    } else {
      assert (p + t)[0] == p[0];
      assert (p + t)[1..] == p[1..] + t;
      SplitPrefix(p[1..], t);
      assert [p[0]] + (p[1..] + Split(t)[0]) == p + Split(t)[0];
    }
  }

  /** Each joined element after the first is preceded by the space of the separator. */
  function Spaced(ys: seq<string>): seq<string>
  {
    seq(|ys|, k requires 0 <= k < |ys| => " " + ys[k])
  }

  lemma {:induction false} SplitJoin(xs: seq<string>)
    requires |xs| >= 1
    requires forall k :: 0 <= k < |xs| ==> ',' !in xs[k]
    ensures Split(Join(xs, ", ")) == [xs[0]] + Spaced(xs[1..])
  {
    if |xs| == 1 {
      SplitPrefix(xs[0], "");
      assert xs[0] + "" == xs[0];
    } else {
      var ys := xs[1..];
      var j := Join(ys, ", ");
      SplitJoin(ys);
      SplitSpaced(j, ys);
      assert Join(xs, ", ") == xs[0] + ("," + (" " + j));
      SplitAtComma(xs[0], " " + j);
    }
  }

  /** A comma-free prefix followed by a comma splits off as a piece of its own. */
  lemma SplitAtComma(a: string, t: string)
    requires ',' !in a
    ensures Split(a + ("," + t)) == [a] + Split(t)
  {
    SplitPrefix(a, "," + t);
    assert ("," + t)[1..] == t;
    assert Split("," + t) == [""] + Split(t);
    assert a + "" == a;
  }

  /** The space after a separator moves into the first piece of what follows it. */
  lemma SplitSpaced(j: string, ys: seq<string>)
    requires |ys| >= 1
    requires Split(j) == [ys[0]] + Spaced(ys[1..])
    ensures Split(" " + j) == Spaced(ys)
  {
    assert ',' !in " ";
    SplitPrefix(" ", j);
    var r := Split(" " + j);
    assert |r| == |ys|;
    forall k | 0 <= k < |ys|
      ensures r[k] == Spaced(ys)[k]
    {
      if k > 0 {
        assert r[k] == Split(j)[k] == Spaced(ys[1..])[k - 1];
      }
    }
  }

  /**
   * The contacts round trip: a non-empty list whose elements contain no comma
   * and no white space at either end, shown joined with `", "` and then split
   * on `","` and trimmed, comes back unchanged.
   */
  lemma ContactsRoundTrip(xs: seq<string>)
    requires |xs| >= 1
    requires forall k :: 0 <= k < |xs| ==> ',' !in xs[k] && Trimmed(xs[k])
    ensures SplitTrim(Join(xs, ", ")) == xs
  {
    SplitJoin(xs);
    TrimAllSpaced(xs);
  }

  lemma TrimAllSpaced(xs: seq<string>)
    requires |xs| >= 1
    requires forall k :: 0 <= k < |xs| ==> Trimmed(xs[k])
    ensures TrimAll([xs[0]] + Spaced(xs[1..])) == xs
  {
    var pieces := [xs[0]] + Spaced(xs[1..]);
    forall k | 0 <= k < |xs|
      ensures Trim(pieces[k]) == xs[k]
    {
      TrimPiece(xs, pieces, k);
    }
    TrimAllKeeps(pieces, xs);
  }

  /** Trimming every piece gives `xs` when trimming each piece gives the element of `xs` at its place. */
  lemma TrimAllKeeps(pieces: seq<string>, xs: seq<string>)
    requires |pieces| == |xs|
    requires forall k :: 0 <= k < |xs| ==> Trim(pieces[k]) == xs[k]
    ensures TrimAll(pieces) == xs
  {
  }

  lemma TrimPiece(xs: seq<string>, pieces: seq<string>, k: nat)
    requires 1 <= |xs| == |pieces| && k < |xs| && Trimmed(xs[k])
    requires pieces == [xs[0]] + Spaced(xs[1..])
    ensures Trim(pieces[k]) == xs[k]
  {
    if k == 0 {
      assert pieces[0] == xs[0];
    } else {
      assert pieces[k] == Spaced(xs[1..])[k - 1] == " " + xs[k];
      TrimDropsLeadingSpace(xs[k]);
    }
  }

  /** The empty list does not survive the round trip: it comes back as one empty contact. */
  lemma EmptyContactsComeBackBlank()
    ensures SplitTrim(Join([], ", ")) == [""]
  {
    assert Split("") == [""];
    assert Trim("") == "";
  }
}
