/** The total order behind every listing: (fqn, uri, start line, start column). */
module SortKeys {
  import opened GraphModel

  datatype SortKey = SortKey(fqn: string, uri: string, line: int, col: int)

  function KeyOfNode(n: Node): SortKey {
    SortKey(n.fqn, n.uri, n.range.startLine, n.range.startCol)
  }

  /** Strings compare by code point, shorter prefix first. */
  predicate StringLess(a: string, b: string) {
    |b| > 0 && (|a| == 0 || a[0] < b[0] || (a[0] == b[0] && StringLess(a[1..], b[1..])))
  }

  predicate KeyLess(a: SortKey, b: SortKey) {
    || StringLess(a.fqn, b.fqn)
    || (a.fqn == b.fqn && (|| StringLess(a.uri, b.uri)
                           || (a.uri == b.uri && (a.line < b.line || (a.line == b.line && a.col < b.col)))))
  }

  lemma {:induction false} StringLessIrreflexive(a: string)
    ensures !StringLess(a, a)
  {
    if |a| > 0 { StringLessIrreflexive(a[1..]); }
  }

  lemma {:induction false} StringLessTransitive(a: string, b: string, c: string)
    requires StringLess(a, b) && StringLess(b, c)
    ensures StringLess(a, c)
  {
    if |a| > 0 && a[0] == b[0] == c[0] { StringLessTransitive(a[1..], b[1..], c[1..]); }
  }

  lemma {:induction false} StringLessTotal(a: string, b: string)
    ensures StringLess(a, b) || a == b || StringLess(b, a)
  {
    if |a| > 0 && |b| > 0 && a[0] == b[0] {
      StringLessTotal(a[1..], b[1..]);
      if a[1..] == b[1..] { assert a == [a[0]] + a[1..] && b == [b[0]] + b[1..]; }
    }
  }

  lemma KeyLessIrreflexive(a: SortKey)
    ensures !KeyLess(a, a)
  {
    StringLessIrreflexive(a.fqn);
    StringLessIrreflexive(a.uri);
  }

  lemma KeyLessTransitive(a: SortKey, b: SortKey, c: SortKey)
    requires KeyLess(a, b) && KeyLess(b, c)
    ensures KeyLess(a, c)
  {
    if StringLess(a.fqn, b.fqn) && StringLess(b.fqn, c.fqn) { StringLessTransitive(a.fqn, b.fqn, c.fqn); }
    if StringLess(a.uri, b.uri) && StringLess(b.uri, c.uri) { StringLessTransitive(a.uri, b.uri, c.uri); }
  }

  /** Exactly one of less, equal, greater. */
  lemma KeyLessTotal(a: SortKey, b: SortKey)
    ensures KeyLess(a, b) || a == b || KeyLess(b, a)
    ensures !(KeyLess(a, b) && KeyLess(b, a)) && (a == b ==> !KeyLess(a, b))
  {
    StringLessTotal(a.fqn, b.fqn);
    StringLessTotal(a.uri, b.uri);
    KeyLessIrreflexive(a);
    if KeyLess(a, b) && KeyLess(b, a) { KeyLessTransitive(a, b, a); }
  }

  // ----- the order, read back -----

  /** Alike up to `k`, where `a` ends or has the smaller character. */
  predicate FirstDiffersAt(a: string, b: string, k: nat) {
    k <= |a| && k < |b| && a[..k] == b[..k] && (k == |a| || a[k] < b[k])
  }

  ghost predicate Precedes(a: string, b: string) {
    exists k :: FirstDiffersAt(a, b, k)
  }

  lemma {:induction false} StringLessMeans(a: string, b: string)
    ensures StringLess(a, b) <==> Precedes(a, b)
  {
    if |a| == 0 || |b| == 0 || a[0] != b[0] {
      assert |b| > 0 && (|a| == 0 || a[0] < b[0]) ==> FirstDiffersAt(a, b, 0);
      assert forall k :: k > 0 && FirstDiffersAt(a, b, k) ==> a[..k][0] == a[0] && b[..k][0] == b[0];
    } else {
      StringLessMeans(a[1..], b[1..]);
      if k: nat :| FirstDiffersAt(a[1..], b[1..], k) {
        assert a[..k + 1] == [a[0]] + a[1..][..k] && b[..k + 1] == [b[0]] + b[1..][..k];
        assert FirstDiffersAt(a, b, k + 1);
      }
      if k: nat :| FirstDiffersAt(a, b, k) {
        assert k > 0 && a[1..][..k - 1] == a[..k][1..] && b[1..][..k - 1] == b[..k][1..];
        assert FirstDiffersAt(a[1..], b[1..], k - 1);
      }
    }
  }

  /** By fqn, then uri, then line, then column, strings by code point. */
  lemma KeyLessMeans(a: SortKey, b: SortKey)
    ensures KeyLess(a, b) <==> if a.fqn != b.fqn then Precedes(a.fqn, b.fqn)
                               else if a.uri != b.uri then Precedes(a.uri, b.uri)
                               else if a.line != b.line then a.line < b.line
                               else a.col < b.col
  {
    StringLessMeans(a.fqn, b.fqn);
    StringLessMeans(a.uri, b.uri);
    StringLessIrreflexive(a.fqn);
    StringLessIrreflexive(a.uri);
  }
}
