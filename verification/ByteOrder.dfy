/** Byte strings in lexicographic order, and sorted duplicate-free sequences of them. */
module ByteOrder {
  import opened Prelude

  type Text = seq<byte>

  predicate Less(a: Text, b: Text)
  {
    b != [] && (a == [] || a[0] < b[0] || (a[0] == b[0] && Less(a[1..], b[1..])))
  }

  lemma {:induction false} LessTrichotomy(a: Text, b: Text)
    ensures Less(a, b) || a == b || Less(b, a)
    ensures !(Less(a, b) && Less(b, a)) && !Less(a, a)
  {
    if a != [] {
      LessTrichotomy(a[1..], a[1..]);
    }
    if a != [] && b != [] {
      LessTrichotomy(a[1..], b[1..]);
      if a[0] == b[0] && a[1..] == b[1..] {
        assert a == [a[0]] + a[1..] && b == [b[0]] + b[1..];
      }
    }
  }

  lemma {:induction false} LessTransitive(a: Text, b: Text, c: Text)
    requires Less(a, b) && Less(b, c)
    ensures Less(a, c)
  {
    if a != [] && a[0] == b[0] == c[0] {
      LessTransitive(a[1..], b[1..], c[1..]);
    }
  }

  /** Strictly increasing, hence also free of duplicates. */
  predicate Sorted(s: seq<Text>)
  {
    forall i, j :: 0 <= i < j < |s| ==> Less(s[i], s[j])
  }

  function Elements(s: seq<Text>): set<Text>
  {
    set x | x in s
  }

  /** Insert into an ordered set; an element already present is left alone. */
  method Insert(s: seq<Text>, x: Text) returns (r: seq<Text>)
    requires Sorted(s)
    ensures Sorted(r) && Elements(r) == Elements(s) + {x}
  {
    var i := 0;
    while i < |s| && Less(s[i], x)
      invariant i <= |s| && forall k :: 0 <= k < i ==> Less(s[k], x)
    {
      i := i + 1;
    }
    if i < |s| && s[i] == x {
      return s;
    }
    if i < |s| {
      LessTrichotomy(s[i], x);
      forall k | i < k < |s| ensures Less(x, s[k]) {
        LessTransitive(x, s[i], s[k]);
      }
    }
    r := s[..i] + [x] + s[i..];
    assert forall y :: y in s <==> y in s[..i] || y in s[i..];
  }

  /** The elements of a set in order. */
  method SortSet(s: set<Text>) returns (r: seq<Text>)
    ensures Sorted(r) && Elements(r) == s
  {
    r := [];
    var left := s;
    while left != {}
      invariant Sorted(r) && left <= s && Elements(r) == s - left
      decreases |left|
    {
      var x :| x in left;
      r := Insert(r, x);
      left := left - {x};
    }
  }
}
