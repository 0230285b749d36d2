/** The names of objects and files, and the order in which a bucket and a directory are listed. */
module Keys {
  /** A name without a slash. */
  type Word = w: string | '/' !in w witness ""

  type Version = Word
  type Name = string

  /** An object under the bucket's prefix, or a file under the builds directory: at the top level, or in the
      directory of a build version. */
  datatype Key = Root(file: Word) | Build(version: Version, name: Name)

  function KeyText(k: Key): string {
    match k
    case Root(file) => file
    case Build(version, name) => version + "/" + name
  }

  /** Lexicographic order by characters. */
  predicate TextLess(a: string, b: string) {
    b != "" && (a == "" || a[0] < b[0] || (a[0] == b[0] && TextLess(a[1..], b[1..])))
  }

  /** Listings are in this order. */
  predicate Before(a: Key, b: Key) {
    TextLess(KeyText(a), KeyText(b))
  }

  // ---------------------------------------------------------------- a total order

  lemma {:induction false} TextIrreflexive(a: string)
    ensures !TextLess(a, a)
  {
    if a != "" {
      TextIrreflexive(a[1..]);
    }
  }

  lemma {:induction false} TextTransitive(a: string, b: string, c: string)
    requires TextLess(a, b) && TextLess(b, c)
    ensures TextLess(a, c)
  {
    if a != "" && a[0] == b[0] == c[0] {
      TextTransitive(a[1..], b[1..], c[1..]);
    }
  }

  lemma {:induction false} TextTotal(a: string, b: string)
    ensures a == b || TextLess(a, b) || TextLess(b, a)
  {
    if a != "" && b != "" && a[0] == b[0] {
      TextTotal(a[1..], b[1..]);
      assert a == [a[0]] + a[1..] && b == [b[0]] + b[1..];
    }
  }

  lemma {:induction false} SamePrefix(p: string, a: string, b: string)
    ensures TextLess(p + a, p + b) <==> TextLess(a, b)
  {
    if p == "" {
      assert p + a == a && p + b == b;
    } else {
      SamePrefix(p[1..], a, b);
      assert (p + a)[1..] == p[1..] + a && (p + b)[1..] == p[1..] + b;
    }
  }

  lemma SlashIffBuild(k: Key)
    ensures '/' in KeyText(k) <==> k.Build?
  {
    assert k.Build? ==> KeyText(k)[|k.version|] == '/';
  }

  lemma FirstSlash(v: Version, a: Name)
    ensures forall i | 0 <= i < |v| :: (v + "/" + a)[i] != '/'
    ensures (v + "/" + a)[|v|] == '/' && (v + "/" + a)[..|v|] == v && (v + "/" + a)[|v| + 1..] == a
  {
    assert forall i | 0 <= i < |v| :: (v + "/" + a)[i] == v[i];
  }

  lemma TextDetermines(a: Key, b: Key)
    requires KeyText(a) == KeyText(b)
    ensures a == b
  {
    SlashIffBuild(a);
    SlashIffBuild(b);
    if a.Build? && b.Build? {
      FirstSlash(a.version, a.name);
      FirstSlash(b.version, b.name);
      assert |a.version| == |b.version|;
    }
  }

  lemma BeforeTotal(a: Key, b: Key)
    ensures !Before(a, a)
    ensures a == b || Before(a, b) || Before(b, a)
  {
    TextIrreflexive(KeyText(a));
    TextTotal(KeyText(a), KeyText(b));
    if KeyText(a) == KeyText(b) {
      TextDetermines(a, b);
    }
  }

  lemma BeforeTransitive(a: Key, b: Key, c: Key)
    requires Before(a, b) && Before(b, c)
    ensures Before(a, c)
  {
    TextTransitive(KeyText(a), KeyText(b), KeyText(c));
  }

  /** Within a directory the names decide. */
  lemma BeforeInDirectory(v: Version, a: Name, b: Name)
    ensures Before(Build(v, a), Build(v, b)) <==> TextLess(a, b)
  {
    SamePrefix(v + "/", a, b);
  }

  lemma {:induction false} FirstOf(keys: set<Key>) returns (first: Key)
    requires keys != {}
    ensures first in keys && forall k | k in keys :: k == first || Before(first, k)
    decreases |keys|
  {
    var k :| k in keys;
    if keys == {k} {
      first := k;
    } else {
      var rest := keys - {k};
      assert rest != {} && keys == rest + {k};
      first := FirstOf(rest);
      BeforeTotal(k, first);
      if Before(k, first) {
        forall j | j in keys ensures j == k || Before(k, j) {
          if j in rest && j != first {
            BeforeTransitive(k, first, j);
          }
        }
        first := k;
      }
    }
  }

  // ---------------------------------------------------------------- reading a listing

  /** How far a listing was read: not at all, past the place of a key, or to its end. */
  datatype Cursor = Start | Past(k: Key) | End

  predicate Ahead(k: Key, c: Cursor) {
    match c
    case Start => true
    case Past(j) => Before(j, k)
    case End => false
  }

  /** The next place to look at: nothing that is there lies before it. */
  predicate NextPlace(keys: set<Key>, c: Cursor, k: Key) {
    Ahead(k, c) && forall j | j in keys && Ahead(j, c) :: j == k || Before(k, j)
  }

  predicate NothingAhead(keys: set<Key>, c: Cursor) {
    forall j | j in keys :: !Ahead(j, c)
  }

  /** Looking at a place puts it and nothing else that is there behind. */
  lemma LookPasses(keys: set<Key>, c: Cursor, k: Key)
    requires NextPlace(keys, c, k)
    ensures !Ahead(k, Past(k))
    ensures forall j | j in keys :: Ahead(j, Past(k)) <==> Ahead(j, c) && j != k
  {
    BeforeTotal(k, k);
    forall j | j in keys && Ahead(j, Past(k)) ensures Ahead(j, c) && j != k {
      if c.Past? {
        BeforeTransitive(c.k, k, j);
      }
    }
  }
}
