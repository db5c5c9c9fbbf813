/**
 Small generic vocabulary shared by the other modules: an optional value,
 the set of elements of a sequence, and the link between repeated elements
 and the size of that set.
 */
module Collections {

  /** A value that may be absent (Python's `None` or an early `return`). */
  datatype Option<T> = None | Some(value: T)

  /** The distinct elements of `s` (Python's `set(s)`). */
  function Elements<T>(s: seq<T>): set<T>
  {
    set x | x in s
  }

  /** No element of `s` occurs twice. */
  predicate NoDuplicates<T(==)>(s: seq<T>)
  {
    forall i, j :: 0 <= i < j < |s| ==> s[i] != s[j]
  }

  /** A sequence has at most as many distinct elements as it is long. */
  lemma {:induction false} ElementsBound<T>(s: seq<T>)
    ensures |Elements(s)| <= |s|
  {
    if |s| > 0 {
      ElementsBound(s[1..]);
      ElementsCons(s);
    }
  }

  /** The distinct elements number exactly the length when nothing repeats, and only then. */
  lemma {:induction false} ElementsExact<T>(s: seq<T>)
    ensures |Elements(s)| == |s| <==> NoDuplicates(s)
  {
    if |s| > 0 {
      var t := s[1..];
      ElementsExact(t);
      ElementsCons(s);
      ElementsBound(t);
      if s[0] in t {
        assert !NoDuplicates(s) by {
          var j :| 0 <= j < |t| && t[j] == s[0];
          assert s[0] == s[j + 1];
        }
      } else {
        assert NoDuplicates(s) <==> NoDuplicates(t) by {
          if NoDuplicates(t) {
            forall i, j | 0 <= i < j < |s| ensures s[i] != s[j] {
              if i == 0 {
                assert s[j] == t[j - 1];
              } else {
                assert s[i] == t[i - 1] && s[j] == t[j - 1];
              }
            }
          }
          if NoDuplicates(s) {
            forall i, j | 0 <= i < j < |t| ensures t[i] != t[j] {
              assert t[i] == s[i + 1] && t[j] == s[j + 1];
            }
          }
        }
      }
    }
  }

  /** How the element set of a non-empty sequence relates to that of its tail. */
  lemma ElementsCons<T>(s: seq<T>)
    requires |s| > 0
    ensures Elements(s) == {s[0]} + Elements(s[1..])
    ensures s[0] in s[1..] ==> |Elements(s)| == |Elements(s[1..])|
    ensures s[0] !in s[1..] ==> |Elements(s)| == |Elements(s[1..])| + 1
  {
    assert Elements(s) == {s[0]} + Elements(s[1..]) by {
      forall x | x in Elements(s) ensures x == s[0] || x in s[1..] {
        var i :| 0 <= i < |s| && s[i] == x;
        if i > 0 {
          assert s[1..][i - 1] == x;
        }
      }
    }
    if s[0] in s[1..] {
      assert s[0] in Elements(s[1..]);
      assert Elements(s) == Elements(s[1..]);
    }
  }

  /** A non-empty sequence has at least one distinct element. */
  lemma ElementsNonEmpty<T>(s: seq<T>)
    requires |s| > 0
    ensures |Elements(s)| >= 1
  {
    assert s[0] in Elements(s);
  }
}
