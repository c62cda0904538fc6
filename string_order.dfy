/** Python's ordering of `str` values (`<`, `sorted`, `max`): lexicographic by code point. */
module StringOrder {

  /** `a < b` on Python strings: the first differing character decides, a proper prefix comes first. */
  predicate Less(a: string, b: string) {
    if |a| == 0 then |b| > 0
    else if |b| == 0 then false
    else if a[0] != b[0] then a[0] < b[0]
    else Less(a[1..], b[1..])
  }

  lemma {:induction false} LessIrreflexive(a: string)
    ensures !Less(a, a)
  {
    if |a| > 0 {
      LessIrreflexive(a[1..]);
    }
  }

  lemma {:induction false} LessTransitive(a: string, b: string, c: string)
    requires Less(a, b) && Less(b, c)
    ensures Less(a, c)
  {
    if |a| > 0 && |b| > 0 && |c| > 0 && a[0] == b[0] && b[0] == c[0] {
      LessTransitive(a[1..], b[1..], c[1..]);
    }
  }

  lemma {:induction false} LessTotal(a: string, b: string)
    requires a != b
    ensures Less(a, b) || Less(b, a)
  {
    if |a| > 0 && |b| > 0 && a[0] == b[0] {
      assert a == [a[0]] + a[1..] && b == [b[0]] + b[1..];
      LessTotal(a[1..], b[1..]);
    }
  }

  /** `m` comes before every other element of `s`. */
  predicate IsLeast(m: string, s: set<string>) {
    m in s && forall x :: x in s && x != m ==> Less(m, x)
  }

  /** `m` comes after every other element of `s`. */
  predicate IsGreatest(m: string, s: set<string>) {
    m in s && forall x :: x in s && x != m ==> Less(x, m)
  }

  lemma {:induction false} LeastExists(s: set<string>)
    requires s != {}
    ensures exists m :: IsLeast(m, s)
    decreases |s|
  {
    var y :| y in s;
    var rest := s - {y};
    if rest == {} {
      assert s == {y};
      assert IsLeast(y, s);
    } else {
      LeastExists(rest);
      var m :| IsLeast(m, rest);
      if Less(y, m) {
        forall x | x in s && x != y
          ensures Less(y, x)
        {
          if x != m { LessTransitive(y, m, x); }
        }
        assert IsLeast(y, s);
      } else {
        LessTotal(y, m);
        assert IsLeast(m, s);
      }
    }
  }

  lemma {:induction false} GreatestExists(s: set<string>)
    requires s != {}
    ensures exists m :: IsGreatest(m, s)
    decreases |s|
  {
    var y :| y in s;
    var rest := s - {y};
    if rest == {} {
      assert s == {y};
      assert IsGreatest(y, s);
    } else {
      GreatestExists(rest);
      var m :| IsGreatest(m, rest);
      if Less(m, y) {
        forall x | x in s && x != y
          ensures Less(x, y)
        {
          if x != m { LessTransitive(x, m, y); }
        }
        assert IsGreatest(y, s);
      } else {
        LessTotal(y, m);
        assert IsGreatest(m, s);
      }
    }
  }

  /** Every element comes strictly before every later one (so no element repeats). */
  predicate StrictlyAscending(s: seq<string>) {
    forall i, j :: 0 <= i < j < |s| ==> Less(s[i], s[j])
  }

  /** `max(keys)` of a non-empty Python dict with string keys. */
  ghost function MaxKey<V>(m: map<string, V>): (k: string)
    requires m != map[]
    ensures IsGreatest(k, m.Keys)
  {
    assert m.Keys != {} by {
      var x :| x in m;
      assert x in m.Keys;
    }
    GreatestExists(m.Keys);
    var k :| IsGreatest(k, m.Keys);
    k
  }

  /** `sorted(m.keys())`: every key once, in ascending order. */
  method SortedKeys<V>(m: map<string, V>) returns (keys: seq<string>)
    ensures StrictlyAscending(keys)
    ensures forall k :: k in keys <==> k in m
    ensures |keys| == |m|
  {
    keys := [];
    var remaining := m.Keys;
    while remaining != {}
      invariant StrictlyAscending(keys)
      invariant forall k :: k in keys || k in remaining <==> k in m
      invariant forall i, x :: 0 <= i < |keys| && x in remaining ==> Less(keys[i], x)
      invariant |keys| + |remaining| == |m|
      decreases |remaining|
    {
      LeastExists(remaining);
      var least :| IsLeast(least, remaining);
      forall i | 0 <= i < |keys| ensures keys[i] != least { LessIrreflexive(least); }
      keys := keys + [least];
      remaining := remaining - {least};
    }
  }
}
