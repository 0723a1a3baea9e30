/** The byte-wise order of bbolt keys. A `string` stands for a Go byte string: one character per byte. */
module ByteOrder {

  predicate Less(a: string, b: string) {
    b != "" && (a == "" || a[0] < b[0] || (a[0] == b[0] && Less(a[1..], b[1..])))
  }

  /** The separator of compound keys. */
  const NUL: string := "\0"

  predicate NoNul(text: string) {
    '\0' !in text
  }

  predicate AtMost(a: string, b: string) {
    a == b || Less(a, b)
  }

  lemma {:induction false} Irreflexive(a: string)
    ensures !Less(a, a)
  {
    if a != "" {
      Irreflexive(a[1..]);
    }
  }

  lemma {:induction false} Connected(a: string, b: string)
    ensures a == b || Less(a, b) || Less(b, a)
  {
    if a != "" && b != "" && a[0] == b[0] {
      Connected(a[1..], b[1..]);
      assert a == [a[0]] + a[1..] && b == [b[0]] + b[1..];
    }
  }

  lemma {:induction false} Transitive(a: string, b: string, c: string)
    requires Less(a, b) && Less(b, c)
    ensures Less(a, c)
  {
    if a != "" && a[0] == b[0] && b[0] == c[0] {
      Transitive(a[1..], b[1..], c[1..]);
    }
  }

  lemma Asymmetric(a: string, b: string)
    requires Less(a, b)
    ensures !Less(b, a)
  {
  }

  predicate IsFirst(k: string, keys: set<string>) {
    k in keys && forall j :: j in keys ==> AtMost(k, j)
  }

  /** Every non-empty finite bucket has a first key. */
  lemma {:induction false} FirstExists(keys: set<string>)
    requires keys != {}
    ensures exists k :: k in keys && IsFirst(k, keys)
    decreases |keys|
  {
    var k :| k in keys;
    var rest := keys - {k};
    assert keys == rest + {k};
    if rest == {} {
      assert IsFirst(k, keys);
    } else {
      FirstExists(rest);
      var m :| m in rest && IsFirst(m, rest);
      Connected(k, m);
      if Less(k, m) {
        forall j | j in keys ensures AtMost(k, j) {
          if j != k && j != m {
            assert j in rest;
            Transitive(k, m, j);
          }
        }
        assert IsFirst(k, keys);
      } else {
        assert IsFirst(m, keys);
      }
    }
  }
}
