/** String facts used by the link table and the handler: JavaScript
    truthiness of an optional string, JavaScript's `<` on strings, and
    substring occurrence. */
module Strings {
  import opened Wrappers

  /** JavaScript truthiness of a value that is a string or missing: the
      missing value and the empty string are falsy. */
  predicate Truthy(s: Option<string>)
  {
    s.Some? && s.value != ""
  }

  /** JavaScript's `a < b` on strings: lexicographic comparison, a proper
      prefix coming first. */
  predicate Less(a: string, b: string)
    decreases |a|
  {
    if |a| == 0 then |b| > 0
    else if |b| == 0 then false
    else if a[0] != b[0] then a[0] < b[0]
    else Less(a[1..], b[1..])
  }

  lemma {:induction false} LessIrreflexive(a: string)
    ensures !Less(a, a)
    decreases |a|
  {
    if |a| > 0 {
      LessIrreflexive(a[1..]);
    }
  }

  lemma {:induction false} LessTransitive(a: string, b: string, c: string)
    requires Less(a, b) && Less(b, c)
    ensures Less(a, c)
    decreases |a|
  {
    if |a| > 0 && a[0] == b[0] && b[0] == c[0] {
      LessTransitive(a[1..], b[1..], c[1..]);
    }
  }

  lemma {:induction false} LessTotal(a: string, b: string)
    requires a != b
    ensures Less(a, b) || Less(b, a)
    decreases |a|
  {
    if |a| > 0 && |b| > 0 && a[0] == b[0] {
      assert a == [a[0]] + a[1..] && b == [b[0]] + b[1..];
      LessTotal(a[1..], b[1..]);
    }
  }

  lemma {:induction false} LessAsymmetric(a: string, b: string)
    requires Less(a, b)
    ensures !Less(b, a)
    decreases |a|
  {
    if |a| > 0 && a[0] == b[0] {
      LessAsymmetric(a[1..], b[1..]);
    }
  }

  /** `a` and `b` agree on their first `k` characters, and there `a` ends
      while `b` goes on, or `a` has the smaller character. */
  predicate DiffersFirstAt(a: string, b: string, k: int)
  {
    0 <= k <= |a| && k < |b| && a[..k] == b[..k] && (k == |a| || a[k] < b[k])
  }

  /** `Less` is the order of the first difference: `a` sorts before `b`
      exactly when, past a common prefix, `a` ends first or has the smaller
      character. */
  lemma {:induction false} LessAtFirstDifference(a: string, b: string)
    ensures Less(a, b) <==> exists k :: DiffersFirstAt(a, b, k)
    decreases |a|
  {
    if |a| == 0 {
      if |b| > 0 {
        assert DiffersFirstAt(a, b, 0);
      }
    } else if |b| > 0 && a[0] == b[0] {
      LessAtFirstDifference(a[1..], b[1..]);
      if Less(a, b) {
        var k :| DiffersFirstAt(a[1..], b[1..], k);
        assert a[..k + 1] == [a[0]] + a[1..][..k] && b[..k + 1] == [b[0]] + b[1..][..k];
        assert DiffersFirstAt(a, b, k + 1);
      }
      if exists k :: DiffersFirstAt(a, b, k) {
        var k :| DiffersFirstAt(a, b, k);
        assert a[1..][..k - 1] == a[..k][1..] && b[1..][..k - 1] == b[..k][1..];
        assert DiffersFirstAt(a[1..], b[1..], k - 1);
      }
    } else if |b| > 0 {
      if a[0] < b[0] {
        assert DiffersFirstAt(a, b, 0);
      }
      if exists k :: DiffersFirstAt(a, b, k) {
        var k :| DiffersFirstAt(a, b, k);
        if k > 0 {
          assert a[..k][0] == b[..k][0];
        }
      }
    }
  }

  /** `sub` occurs in `s` starting at index `k`. */
  predicate OccursAt(sub: string, s: string, k: int)
  {
    0 <= k && k + |sub| <= |s| && s[k..k + |sub|] == sub
  }

  /** `sub` occurs somewhere in `s`; used to state where the portal id
      lands in a link's URL. */
  predicate Contains(s: string, sub: string)
  {
    exists k | 0 <= k <= |s| :: OccursAt(sub, s, k)
  }

  /** `s` begins with `prefix`; used to state that a link's URL is built
      on the base URL. */
  predicate StartsWith(s: string, prefix: string)
  {
    |prefix| <= |s| && s[..|prefix|] == prefix
  }
}
