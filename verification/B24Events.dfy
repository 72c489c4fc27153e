/** Reading the portal's event callbacks (app/utils/b24Events.ts): bracket-encoded forms become trees,
    whatever the order of their pairs. The pairs are those of section 5 of the WHATWG URL Standard. */
module B24Events {
  import opened Outcome
  import opened Text

  type Path = seq<string>

  datatype Tree = Leaf(value: string) | Node(children: map<string, Tree>)

  const POLLUTING_KEYS := ["__proto__", "constructor", "prototype"]

  /** `data[bot][id]` names the path data, bot, id. */
  function PathOf(key: string): Path
  {
    SplitOn(ReplaceChar(key, ']', ""), '[')
  }

  predicate Polluting(path: Path)
  {
    exists k :: 0 <= k < |path| && path[k] in POLLUTING_KEYS
  }

  /** Writes a value at a path: whatever is no subtree on the way becomes one, whatever is at the end is
      replaced. */
  function Put(m: map<string, Tree>, path: Path, value: string): map<string, Tree>
    requires path != []
    decreases |path|
  {
    if |path| == 1 then m[path[0] := Leaf(value)]
    else
      var child := if path[0] in m && m[path[0]].Node? then m[path[0]].children else map[];
      m[path[0] := Node(Put(child, path[1..], value))]
  }

  datatype Pair = Pair(key: string, value: string)

  function Parsed(pairs: seq<Pair>): map<string, Tree>
  {
    if pairs == [] then map[]
    else
      var n := |pairs| - 1;
      var path := PathOf(pairs[n].key);
      if Polluting(path) then Parsed(pairs[..n]) else Put(Parsed(pairs[..n]), path, pairs[n].value)
  }

  method ParseBracketForm(pairs: seq<Pair>) returns (out: map<string, Tree>)
    ensures out == Parsed(pairs)
  {
    hide Put, Polluting;
    out := map[];
    for i := 0 to |pairs|
      invariant out == Parsed(pairs[..i])
    {
      assert pairs[..i + 1][..i] == pairs[..i];
      var path := PathOf(pairs[i].key);
      if Polluting(path) {
        continue;
      }
      out := Put(out, path, pairs[i].value);
    }
    assert pairs[..|pairs|] == pairs;
  }

  // ---- Leaves

  /** The value at a path, where a leaf stands. */
  function Get(m: map<string, Tree>, path: Path): Option<string>
    decreases |path|
  {
    if path == [] || path[0] !in m then None
    else
      match m[path[0]]
      case Leaf(value) => if |path| == 1 then Some(value) else None
      case Node(children) => Get(children, path[1..])
  }

  /** One path leads to the other or through it. */
  predicate Related(p: Path, q: Path)
  {
    p <= q || q <= p
  }

  lemma RelatedTail(p: Path, q: Path)
    requires p != [] && q != []
    ensures Related(p, q) <==> p[0] == q[0] && Related(p[1..], q[1..])
    ensures p == q <==> p[0] == q[0] && p[1..] == q[1..]
  {
    assert p == [p[0]] + p[1..] && q == [q[0]] + q[1..];
  }

  /** Writing at a path puts its value there, removes every leaf the path leads through or to, and leaves
      all the others. */
  lemma {:induction false} PutGet(m: map<string, Tree>, p: Path, value: string, q: Path)
    requires p != [] && q != []
    ensures Get(Put(m, p, value), q) == if p == q then Some(value) else if Related(p, q) then None else Get(m, q)
    decreases |p|
  {
    RelatedTail(p, q);
    if p[0] == q[0] && |p| > 1 {
      var child := if p[0] in m && m[p[0]].Node? then m[p[0]].children else map[];
      if |q| > 1 {
        PutGet(child, p[1..], value, q[1..]);
      }
      assert Get(map[], q[1..]) == None;
    }
    if p[0] == q[0] && |p| == 1 {
      assert p[1..] == [];
    }
  }

  /** A leaf stands alone on its way. */
  lemma {:induction false} LeafAlone(m: map<string, Tree>, p: Path, q: Path)
    requires Get(m, p).Some? && Related(p, q) && p != q
    ensures Get(m, q) == None
    decreases |p|
  {
    if q != [] {
      RelatedTail(p, q);
      if m[p[0]].Node? {
        LeafAlone(m[p[0]].children, p[1..], q[1..]);
      }
    }
  }

  /** The last pair of the list that has to do with the path. */
  function LastRelated(pairs: seq<Pair>, q: Path): Option<Pair>
  {
    if pairs == [] then None
    else
      var last := pairs[|pairs| - 1];
      if !Polluting(PathOf(last.key)) && Related(PathOf(last.key), q) then Some(last) else LastRelated(pairs[..|pairs| - 1], q)
  }

  /** What a list of pairs decodes to, leaf by leaf and for every list: the last pair that has to do with
      a path decides, its value standing there if it names that very path. Pairs with a polluting key
      decide nothing. */
  lemma {:induction false} ParsedLeaf(pairs: seq<Pair>, q: Path)
    requires q != []
    ensures Get(Parsed(pairs), q) ==
            match LastRelated(pairs, q)
            case None => None
            case Some(pair) => if PathOf(pair.key) == q then Some(pair.value) else None
  {
    hide Polluting, PathOf;
    if pairs != [] {
      var n := |pairs| - 1;
      ParsedLeaf(pairs[..n], q);
      PathNotEmpty(pairs[n].key);
      if !Polluting(PathOf(pairs[n].key)) {
        PutGet(Parsed(pairs[..n]), PathOf(pairs[n].key), pairs[n].value, q);
      }
    }
  }

  lemma PathNotEmpty(key: string)
    ensures PathOf(key) != []
  {
  }

  // ---- Trees are their leaves

  /** Every subtree has something in it. */
  predicate Grown(m: map<string, Tree>)
    decreases Node(m)
  {
    forall k :: k in m && m[k].Node? ==> m[k].children != map[] && Grown(m[k].children)
  }

  lemma {:induction false} PutGrows(m: map<string, Tree>, p: Path, value: string)
    requires p != [] && Grown(m)
    ensures Grown(Put(m, p, value)) && Put(m, p, value) != map[]
    decreases |p|
  {
    var out := Put(m, p, value);
    assert p[0] in out;
    if |p| > 1 {
      var child := if p[0] in m && m[p[0]].Node? then m[p[0]].children else map[];
      PutGrows(child, p[1..], value);
    }
    forall k | k in out && out[k].Node? ensures out[k].children != map[] && Grown(out[k].children) {
      if k != p[0] {
        assert k in m && m[k].Node?;
      }
    }
  }

  lemma {:induction false} ParsedGrown(pairs: seq<Pair>)
    ensures Grown(Parsed(pairs))
  {
    hide Polluting, PathOf, Put;
    if pairs != [] {
      var n := |pairs| - 1;
      ParsedGrown(pairs[..n]);
      PathNotEmpty(pairs[n].key);
      if !Polluting(PathOf(pairs[n].key)) {
        PutGrows(Parsed(pairs[..n]), PathOf(pairs[n].key), pairs[n].value);
      }
    }
  }

  lemma {:induction false} SomeLeaf(m: map<string, Tree>) returns (q: Path)
    requires Grown(m) && m != map[]
    ensures q != [] && Get(m, q).Some?
    decreases Node(m)
  {
    var k :| k in m;
    if m[k].Node? {
      var rest := SomeLeaf(m[k].children);
      q := [k] + rest;
      assert q[1..] == rest;
    } else {
      q := [k];
    }
  }

  ghost predicate SameLeaves(a: map<string, Tree>, b: map<string, Tree>)
  {
    forall q: Path :: Get(a, q) == Get(b, q)
  }

  /** Trees without empty subtrees are equal when their leaves are. */
  lemma {:induction false} EqualByLeaves(a: map<string, Tree>, b: map<string, Tree>)
    requires Grown(a) && Grown(b) && SameLeaves(a, b)
    ensures a == b
    decreases Node(a)
  {
    forall k | k in a ensures k in b && a[k] == b[k] {
      KeyByLeaves(a, b, k);
      if a[k].Node? {
        ChildLeaves(a, b, k);
        EqualByLeaves(a[k].children, b[k].children);
      } else {
        assert Get(a, [k]) == Get(b, [k]);
      }
    }
    forall k | k in b ensures k in a {
      KeyByLeaves(b, a, k);
    }
  }

  lemma KeyByLeaves(a: map<string, Tree>, b: map<string, Tree>, k: string)
    requires Grown(a) && SameLeaves(a, b) && k in a
    ensures k in b && (a[k].Leaf? ==> b[k] == a[k]) && (a[k].Node? ==> b[k].Node?)
  {
    if a[k].Node? {
      var rest := SomeLeaf(a[k].children);
      var q := [k] + rest;
      assert q[1..] == rest;
      assert Get(a, q) == Get(b, q);
    } else {
      assert Get(a, [k]) == Get(b, [k]);
      assert [k][1..] == [];
    }
  }

  lemma ChildLeaves(a: map<string, Tree>, b: map<string, Tree>, k: string)
    requires SameLeaves(a, b) && k in a && k in b && a[k].Node? && b[k].Node?
    ensures SameLeaves(a[k].children, b[k].children)
  {
    forall q: Path ensures Get(a[k].children, q) == Get(b[k].children, q) {
      assert ([k] + q)[1..] == q;
      assert Get(a, [k] + q) == Get(b, [k] + q);
    }
  }

  // ---- Encoding and back

  /** `data[bot][id]`. */
  function KeyOf(path: Path): string
    requires path != []
  {
    path[0] + Brackets(path[1..])
  }

  function Brackets(rest: Path): string
  {
    if rest == [] then "" else "[" + rest[0] + "]" + Brackets(rest[1..])
  }

  predicate Plain(segment: string)
  {
    '[' !in segment && ']' !in segment
  }

  predicate PlainPath(path: Path)
  {
    path != [] && forall k :: 0 <= k < |path| ==> Plain(path[k])
  }

  lemma {:induction false} WithoutBrackets(rest: Path)
    requires forall k :: 0 <= k < |rest| ==> Plain(rest[k])
    ensures ReplaceChar(Brackets(rest), ']', "") == if rest == [] then "" else "[" + Join(rest, "[")
  {
    hide ReplaceChar;
    if rest == [] {
      ReplaceNone("", ']', "");
    } else {
      WithoutBrackets(rest[1..]);
      ReplaceAppend("[" + rest[0] + "]", Brackets(rest[1..]), ']', "");
      ReplaceAppend("[" + rest[0], "]", ']', "");
      ReplaceAppend("[", rest[0], ']', "");
      ReplaceNone("[", ']', "");
      ReplaceNone(rest[0], ']', "");
      DropsOne();
      assert rest[1..] == [] ==> Join(rest, "[") == rest[0];
    }
  }

  lemma DropsOne()
    ensures ReplaceChar("]", ']', "") == ""
  {
    assert "]"[1..] == "";
  }

  /** Encoding a path and reading it gives the path. */
  lemma PathRoundTrip(path: Path)
    requires PlainPath(path)
    ensures PathOf(KeyOf(path)) == path
  {
    hide ReplaceChar, Brackets;
    WithoutBrackets(path[1..]);
    ReplaceAppend(path[0], Brackets(path[1..]), ']', "");
    ReplaceNone(path[0], ']', "");
    JoinFirst(path);
    SplitJoin(path, '[');
  }

  lemma JoinFirst(path: Path)
    requires path != []
    ensures Join(path, "[") == path[0] + if path[1..] == [] then "" else "[" + Join(path[1..], "[")
  {
    if |path| == 1 {
      assert path[1..] == [];
    }
  }

  ghost predicate IsPairOf(tree: map<string, Tree>, pair: Pair)
  {
    exists path: Path :: PlainPath(path) && pair.key == KeyOf(path) && Get(tree, path) == Some(pair.value)
  }

  /** The pairs list every leaf of the tree and nothing else, in any order, with repeats allowed. */
  ghost predicate PairsOf(tree: map<string, Tree>, pairs: seq<Pair>)
  {
    && (forall k :: 0 <= k < |pairs| ==> IsPairOf(tree, pairs[k]))
    && (forall path: Path :: Get(tree, path).Some? ==> exists k :: 0 <= k < |pairs| && path != [] && pairs[k].key == KeyOf(path))
  }

  /** All keys of the tree are free of brackets and none is polluting. */
  ghost predicate Encodable(tree: map<string, Tree>)
  {
    forall path: Path :: Get(tree, path).Some? ==> PlainPath(path) && !Polluting(path)
  }

  /** Among the pairs of a tree, those that have to do with a path agree with the tree on it. */
  lemma {:induction false} RelatedAgree(tree: map<string, Tree>, pairs: seq<Pair>, q: Path)
    requires q != [] && Encodable(tree)
    requires forall k :: 0 <= k < |pairs| ==> IsPairOf(tree, pairs[k])
    ensures match LastRelated(pairs, q)
            case None => forall k :: 0 <= k < |pairs| ==> PathOf(pairs[k].key) != q
            case Some(pair) => Get(tree, q) == if PathOf(pair.key) == q then Some(pair.value) else None
  {
    hide Polluting, PathOf, KeyOf, Get, Plain;
    if pairs != [] {
      var n := |pairs| - 1;
      var path: Path :| PlainPath(path) && pairs[n].key == KeyOf(path) && Get(tree, path) == Some(pairs[n].value);
      PathRoundTrip(path);
      if Related(path, q) {
        if path != q {
          LeafAlone(tree, path, q);
        }
      } else {
        RelatedAgree(tree, pairs[..n], q);
        assert path != q;
        forall k | 0 <= k < |pairs| && LastRelated(pairs, q).None? ensures PathOf(pairs[k].key) != q {
          assert k < n ==> PathOf(pairs[..n][k].key) != q;
        }
      }
    }
  }

  /** Decoding undoes encoding: the pairs of a tree, in any order, give back the tree. */
  lemma DecodeEncode(tree: map<string, Tree>, pairs: seq<Pair>)
    requires Grown(tree) && Encodable(tree) && PairsOf(tree, pairs)
    ensures Parsed(pairs) == tree
  {
    hide Parsed, PathOf, KeyOf, Plain, Polluting, Grown, LastRelated, Encodable;
    var out := Parsed(pairs);
    ParsedGrown(pairs);
    forall q: Path ensures Get(out, q) == Get(tree, q) {
      if q != [] {
        ParsedLeaf(pairs, q);
        RelatedAgree(tree, pairs, q);
        if LastRelated(pairs, q).None? && Get(tree, q).Some? {
          LeafListed(tree, pairs, q);
        }
      }
    }
    EqualByLeaves(out, tree);
  }

  lemma LeafListed(tree: map<string, Tree>, pairs: seq<Pair>, q: Path)
    requires Encodable(tree) && PairsOf(tree, pairs) && Get(tree, q).Some?
    ensures exists k :: 0 <= k < |pairs| && PathOf(pairs[k].key) == q
  {
    hide PathOf, KeyOf, Plain, Polluting, Get;
    var k :| 0 <= k < |pairs| && q != [] && pairs[k].key == KeyOf(q);
    PathRoundTrip(q);
  }

  // ---- Polluting keys

  lemma PollutingExactly(path: Path)
    ensures Polluting(path) <==> "__proto__" in path || "constructor" in path || "prototype" in path
  {
    var a, b, c := "__proto__", "constructor", "prototype";
    forall s: string ensures s in POLLUTING_KEYS <==> s == a || s == b || s == c {
    }
  }

  /** No polluting key anywhere in a tree. */
  predicate Clean(m: map<string, Tree>)
    decreases Node(m)
  {
    forall k :: k in m ==> k !in POLLUTING_KEYS && (m[k].Node? ==> Clean(m[k].children))
  }

  lemma {:induction false} PutKeepsClean(m: map<string, Tree>, p: Path, value: string)
    requires p != [] && Clean(m) && !Polluting(p)
    ensures Clean(Put(m, p, value))
    decreases |p|
  {
    hide POLLUTING_KEYS;
    var out := Put(m, p, value);
    assert p[0] !in POLLUTING_KEYS;
    if |p| > 1 {
      var child := if p[0] in m && m[p[0]].Node? then m[p[0]].children else map[];
      forall k | 0 <= k < |p[1..]| ensures p[1..][k] !in POLLUTING_KEYS {
        assert p[1..][k] == p[k + 1];
      }
      PutKeepsClean(child, p[1..], value);
    }
    forall k | k in out ensures k !in POLLUTING_KEYS && (out[k].Node? ==> Clean(out[k].children)) {
      if k != p[0] {
        assert k in m;
      }
    }
  }

  /** Whatever is posted, no key of the result is a polluting one, at any depth. */
  lemma {:induction false} ParsedClean(pairs: seq<Pair>)
    ensures Clean(Parsed(pairs))
  {
    hide Polluting, PathOf, Put, POLLUTING_KEYS;
    if pairs != [] {
      var n := |pairs| - 1;
      ParsedClean(pairs[..n]);
      PathNotEmpty(pairs[n].key);
      if !Polluting(PathOf(pairs[n].key)) {
        PutKeepsClean(Parsed(pairs[..n]), PathOf(pairs[n].key), pairs[n].value);
      }
    }
  }

  // ---- Comparing secrets

  /** Bitwise exclusive or, and or, of two numbers. */
  function Xor(x: nat, y: nat): (r: nat)
    ensures r == 0 <==> x == y
    decreases x + y
  {
    if x == 0 && y == 0 then 0 else 2 * Xor(x / 2, y / 2) + if x % 2 == y % 2 then 0 else 1
  }

  function Or(x: nat, y: nat): (r: nat)
    ensures r == 0 <==> x == 0 && y == 0
    decreases x + y
  {
    if x == 0 && y == 0 then 0 else 2 * Or(x / 2, y / 2) + if x % 2 == 0 && y % 2 == 0 then 0 else 1
  }

  /** The code unit at a place; past the end it counts as zero. */
  function CodeAt(s: string, i: nat): nat
  {
    if i < |s| then UnitOf(s[i]) else 0
  }

  /** Walking both strings to the longer end, without stopping early, tells exactly whether they are
      equal: lengths are compared first, so padding with zeros cannot hide a difference. */
  method SafeEqual(a: string, b: string) returns (equal: bool)
    ensures equal <==> a == b
  {
    var len := if |a| > |b| then |a| else |b|;
    var diff := Xor(|a|, |b|);
    for i := 0 to len
      invariant diff == 0 <==> |a| == |b| && forall k :: 0 <= k < i ==> CodeAt(a, k) == CodeAt(b, k)
    {
      diff := Or(diff, Xor(CodeAt(a, i), CodeAt(b, i)));
    }
    equal := diff == 0;
    if equal {
      forall k | 0 <= k < |a| ensures a[k] == b[k] {
        assert CodeAt(a, k) == CodeAt(b, k);
        UnitsApart(0, a[k], b[k]);
      }
    }
  }

  /** A token counts only when there is one on both sides and they are the same. */
  method VerifyApplicationToken(received: string, stored: string) returns (ok: bool)
    ensures ok <==> received == stored && stored != ""
  {
    if received == "" || stored == "" {
      return false;
    }
    ok := SafeEqual(received, stored);
  }
}
