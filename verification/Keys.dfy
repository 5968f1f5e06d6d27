/** The names one statement uses (facade/managers.py): `tag_0_1_2` or `tag_d0_arg_1_2`, a tag and the
    position of the match in the demands. Different tags or positions give different names. */
module Keys {

  function Digit(n: nat): char
    requires n < 10
  {
    "0123456789"[n]
  }

  predicate IsDigit(c: char) {
    '0' <= c <= '9'
  }

  function Decimal(n: nat): (s: string)
    ensures s != "" && forall c :: c in s ==> IsDigit(c)
  {
    if n < 10 then [Digit(n)] else Decimal(n / 10) + [Digit(n % 10)]
  }

  /** Where a demand's matches start: a port demand, or one side of an action demand. */
  datatype Root = OfPorts(demand: nat) | OfArgs(demand: nat) | OfReturns(demand: nat)

  datatype Path = Path(root: Root, steps: seq<nat>)

  function Child(p: Path, i: nat): Path {
    p.(steps := p.steps + [i])
  }

  /** The other position is the match's own or below it. */
  predicate Above(p: Path, q: Path) {
    p.root == q.root && p.steps <= q.steps
  }

  lemma Siblings(p: Path, i: nat, j: nat)
    requires i != j
    ensures !Above(Child(p, i), Child(p, j)) && !Above(Child(p, i), p) && Above(p, Child(p, i))
  {
    assert Child(p, i).steps[|p.steps|] == i && Child(p, j).steps[|p.steps|] == j;
  }

  /** What follows the demand's number. */
  function Side(r: Root): string {
    match r
    case OfPorts(_) => ""
    case OfArgs(_) => "_arg"
    case OfReturns(_) => "_ret"
  }

  function Joined(steps: seq<nat>): string {
    if steps == [] then "" else "_" + Decimal(steps[0]) + Joined(steps[1..])
  }

  /** `id_path`. */
  function PathText(p: Path): string {
    (if p.root.OfPorts? then "" else "d") + (Decimal(p.root.demand) + (Side(p.root) + Joined(p.steps)))
  }

  predicate IsTag(tag: string) {
    forall c | c in tag :: !IsDigit(c)
  }

  function Key(tag: string, path: Path): string {
    tag + "_" + PathText(path)
  }

  lemma {:induction false} SameDecimal(m: nat, n: nat)
    requires Decimal(m) == Decimal(n)
    ensures m == n
    decreases m
  {
    var s, t := Decimal(m), Decimal(n);
    assert s[|s| - 1] == t[|t| - 1] == Digit(m % 10) == Digit(n % 10);
    if m >= 10 {
      assert s[..|s| - 1] == Decimal(m / 10) && t[..|t| - 1] == Decimal(n / 10);
      SameDecimal(m / 10, n / 10);
    }
  }

  /** No digit comes first. */
  predicate Ends(s: string) {
    s == "" || !IsDigit(s[0])
  }

  lemma NotLonger(a: string, x: string, b: string, y: string)
    requires Ends(x) && (forall c :: c in b ==> IsDigit(c)) && a + x == b + y
    ensures |b| <= |a|
  {
    var s := a + x;
    assert |a| < |s| ==> s[|a|] == x[0];
    assert forall i :: 0 <= i < |b| ==> s[i] == b[i] && b[i] in b;
  }

  /** A number ends where its digits do. */
  lemma NumberEnds(m: nat, x: string, n: nat, y: string)
    requires Ends(x) && Ends(y) && Decimal(m) + x == Decimal(n) + y
    ensures m == n && x == y
  {
    var a, b, s := Decimal(m), Decimal(n), Decimal(m) + x;
    assert s == b + y;
    NotLonger(a, x, b, y);
    NotLonger(b, y, a, x);
    assert a == s[..|a|] && b == s[..|b|] && x == s[|a|..] && y == s[|b|..];
    SameDecimal(m, n);
  }

  lemma AfterUnderscore(a: string, b: string)
    ensures ("_" + a + b)[0] == '_' && ("_" + a + b)[1..] == a + b
  {}

  lemma JoinedEnds(p: seq<nat>)
    ensures Ends(Joined(p)) && (p != [] ==> Joined(p)[0] == '_' && Joined(p)[1..] == Decimal(p[0]) + Joined(p[1..]))
  {
    if p != [] { AfterUnderscore(Decimal(p[0]), Joined(p[1..])); }
  }

  lemma {:induction false} SameJoined(p: seq<nat>, q: seq<nat>)
    requires Joined(p) == Joined(q)
    ensures p == q
    decreases |p|
  {
    JoinedEnds(p);
    JoinedEnds(q);
    if p != [] && q != [] {
      JoinedEnds(p[1..]);
      JoinedEnds(q[1..]);
      NumberEnds(p[0], Joined(p[1..]), q[0], Joined(q[1..]));
      SameJoined(p[1..], q[1..]);
      assert p == [p[0]] + p[1..] && q == [q[0]] + q[1..];
    }
  }

  lemma SameSide(r: Root, p: seq<nat>, r': Root, q: seq<nat>)
    requires r.OfPorts? == r'.OfPorts? && Side(r) + Joined(p) == Side(r') + Joined(q)
    ensures Side(r) == Side(r') && p == q
  {
    var s := Side(r) + Joined(p);
    assert s == Side(r') + Joined(q);
    if !r.OfPorts? {
      assert s[1] == Side(r)[1] == Side(r')[1];
      assert "_arg"[1] == 'a' && "_ret"[1] == 'r';
    }
    assert Joined(p) == s[|Side(r)|..] && Joined(q) == s[|Side(r')|..];
    SameJoined(p, q);
  }

  lemma SideEnds(r: Root, p: seq<nat>)
    ensures Ends(Side(r) + Joined(p))
  {
    JoinedEnds(p);
  }

  lemma SameText(p: Path, q: Path)
    requires p.root.OfPorts? == q.root.OfPorts? && PathText(p) == PathText(q)
    ensures p == q
  {
    var x, y := Side(p.root) + Joined(p.steps), Side(q.root) + Joined(q.steps);
    var k := if p.root.OfPorts? then 0 else 1;
    assert Decimal(p.root.demand) + x == PathText(p)[k..] && Decimal(q.root.demand) + y == PathText(q)[k..];
    SideEnds(p.root, p.steps);
    SideEnds(q.root, q.steps);
    NumberEnds(p.root.demand, x, q.root.demand, y);
    SameSide(p.root, p.steps, q.root, q.steps);
    assert Side(p.root) == Side(q.root) ==> p.root == q.root by {
      assert |""| == 0 && "_arg"[1] != "_ret"[1];
    }
  }

  /** Where the first digit of a name stands, and what comes before it. */
  lemma FirstDigit(tag: string, p: Path) returns (i: nat)
    requires IsTag(tag)
    ensures 0 < i < |Key(tag, p)| && IsDigit(Key(tag, p)[i]) && forall j :: 0 <= j < i ==> !IsDigit(Key(tag, p)[j])
    ensures Key(tag, p)[i - 1] == (if p.root.OfPorts? then '_' else 'd') && i == |tag| + (if p.root.OfPorts? then 1 else 2)
  {
    i := |tag| + if p.root.OfPorts? then 1 else 2;
    var d := Decimal(p.root.demand);
    assert Key(tag, p)[i] == d[0] && d[0] in d;
    assert forall j :: 0 <= j < |tag| ==> Key(tag, p)[j] == tag[j] && tag[j] in tag;
  }

  /** A name tells its tag and its position. */
  lemma SameKey(tag: string, p: Path, tag': string, q: Path)
    requires IsTag(tag) && IsTag(tag') && Key(tag, p) == Key(tag', q)
    ensures tag == tag' && p == q
  {
    var i := FirstDigit(tag, p);
    var j := FirstDigit(tag', q);
    var s := Key(tag, p);
    assert i == j;
    assert tag == s[..|tag|] && tag' == s[..|tag'|] && PathText(p) == s[|tag| + 1..] && PathText(q) == s[|tag'| + 1..];
    SameText(p, q);
  }

  /** A name of the match at `path` or of a match below it. */
  ghost predicate NameBelow(key: string, path: Path) {
    exists tag, p :: IsTag(tag) && Above(path, p) && key == Key(tag, p)
  }

  lemma BelowIff(tag: string, p: Path, path: Path)
    requires IsTag(tag)
    ensures NameBelow(Key(tag, p), path) <==> Above(path, p)
  {
    if NameBelow(Key(tag, p), path) {
      var tag', q :| IsTag(tag') && Above(path, q) && Key(tag, p) == Key(tag', q);
      SameKey(tag, p, tag', q);
    }
  }

  lemma BelowBelow(key: string, path: Path, i: nat)
    requires NameBelow(key, Child(path, i))
    ensures NameBelow(key, path)
  {
    var tag, p :| IsTag(tag) && Above(Child(path, i), p) && key == Key(tag, p);
    assert Above(path, p);
  }

  /** Names below two positions differ, unless one position is below the other. */
  lemma BelowBoth(key: string, p: Path, q: Path)
    requires NameBelow(key, p) && NameBelow(key, q)
    ensures Above(p, q) || Above(q, p)
  {
    var tag, a :| IsTag(tag) && Above(p, a) && key == Key(tag, a);
    var tag', b :| IsTag(tag') && Above(q, b) && key == Key(tag', b);
    SameKey(tag, a, tag', b);
    assert p.steps == a.steps[..|p.steps|] && q.steps == a.steps[..|q.steps|];
  }
}
