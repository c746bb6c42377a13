/** Logical and physical paths as the program writes them: slash-separated text,
    put in canonical form by path.Clean and path.Join. The rest of the model
    works on the segments; this module shows that nothing is lost by that. */
module PathStrings {
  import opened Base

  const STAGING: Segment := ".nexuscloud-staging"
  const VERSIONS: Segment := ".nexuscloud-versions"

  /** Cuts text at every separator; n separators give n + 1 pieces. */
  function Split(s: string): (r: seq<string>)
    ensures |r| > 0
  {
    if s == "" then [""]
    else if s[0] == '/' then [""] + Split(s[1..])
    else var rest := Split(s[1..]); [[s[0]] + rest[0]] + rest[1..]
  }

  /** Walks the pieces from acc: "" and "." stay, ".." goes up unless at the root. */
  function Walk(acc: Path, pieces: seq<string>): Path
    decreases |pieces|
  {
    if pieces == [] then acc
    else Walk(Enter(acc, pieces[0]), pieces[1..])
  }

  function Enter(acc: Path, piece: string): Path {
    if piece == "" || piece == "." then acc
    else if piece == ".." then if acc == [] then [] else Parent(acc)
    else acc + [piece]
  }

  function CleanSegments(p: string): Path {
    Walk([], Split(p))
  }

  function Tail(segs: Path): string {
    if segs == [] then "" else "/" + segs[0] + Tail(segs[1..])
  }

  /** The canonical text of a path. */
  function Render(segs: Path): string {
    if segs == [] then "/" else Tail(segs)
  }

  /** path.Clean on a text that starts at the root. */
  function Clean(p: string): string {
    Render(CleanSegments(p))
  }

  /** The text path.Join cleans: the non-empty elements, joined by separators. */
  function JoinText(elems: seq<string>): string {
    if elems == [] then ""
    else if elems[0] == "" then JoinText(elems[1..])
    else
      var rest := JoinText(elems[1..]);
      if rest == "" then elems[0] else elems[0] + "/" + rest
  }

  function Join(elems: seq<string>): string {
    Clean(JoinText(elems))
  }

  predicate ValidSegment(x: Segment) {
    x != "" && x != "." && x != ".." && '/' !in x
  }

  predicate Canonical(segs: Path) {
    forall x | x in segs :: ValidSegment(x)
  }

  /** Characters no file or folder name may hold. */
  predicate InvalidChar(c: char) {
    c in "<>:\"/\\|?*" || c < ' '
  }

  predicate ValidName(name: string) {
    name != "" && name != "." && name != ".." && forall c | c in name :: !InvalidChar(c)
  }

  /** Which names are refused: the empty one, the two dots, and any with a control character or
      one of nine others in any position. */
  lemma NamesRefused(name: string)
    ensures !ValidName(name) <==>
              || name == "" || name == "." || name == ".."
              || exists i | 0 <= i < |name| ::
                   || name[i] as int < 32
                   || name[i] == '<' || name[i] == '>' || name[i] == ':' || name[i] == '\"' || name[i] == '/'
                   || name[i] == '\\' || name[i] == '|' || name[i] == '?' || name[i] == '*'
  {
    forall i | 0 <= i < |name|
      ensures InvalidChar(name[i]) <==>
                || name[i] as int < 32
                || name[i] == '<' || name[i] == '>' || name[i] == ':' || name[i] == '\"' || name[i] == '/'
                || name[i] == '\\' || name[i] == '|' || name[i] == '?' || name[i] == '*'
    {
      NineCharacters(name[i]);
    }
  }

  lemma NineCharacters(c: char)
    ensures c in "<>:\"/\\|?*" <==>
              || c == '<' || c == '>' || c == ':' || c == '\"' || c == '/' || c == '\\' || c == '|' || c == '?'
              || c == '*'
  {
    var all := "<>:\"/\\|?*";
    assert all[0] == '<' && all[1] == '>' && all[2] == ':' && all[3] == '\"' && all[4] == '/' && all[5] == '\\'
        && all[6] == '|' && all[7] == '?' && all[8] == '*';
  }

  function NormalizeParentPath(p: string): string {
    if p == "" then "/" else Clean("/" + p)
  }

  function PhysicalPath(owner: string, parent: string, name: string): string {
    Join(["/", owner, parent, name])
  }

  function VersionStoragePath(owner: string, fileId: string, num: nat): string {
    Join(["/", owner, VERSIONS, fileId, Itoa(num)])
  }

  // ----- numbers as text

  function Digit(n: nat): char
    requires n < 10
  {
    "0123456789"[n]
  }

  function DigitValue(c: char): nat {
    if '0' <= c <= '9' then c as int - '0' as int else 0
  }

  /** strconv.Itoa, with its inverse. */
  function Itoa(n: nat): (s: string)
    ensures s != "" && Atoi(s) == n
    ensures forall c | c in s :: '0' <= c <= '9'
  {
    if n < 10 then [Digit(n)] else Itoa(n / 10) + [Digit(n % 10)]
  }

  function Atoi(s: string): nat {
    if s == "" then 0 else 10 * Atoi(s[..|s| - 1]) + DigitValue(s[|s| - 1])
  }

  lemma ItoaIsSegment(n: nat)
    ensures ValidSegment(Itoa(n))
  {}

  // ----- canonical form

  lemma {:induction false} WalkCanonical(acc: Path, pieces: seq<string>)
    requires Canonical(acc)
    requires forall x | x in pieces :: '/' !in x
    ensures Canonical(Walk(acc, pieces))
    decreases |pieces|
  {
    if pieces != [] {
      assert pieces[0] in pieces;
      WalkCanonical(Enter(acc, pieces[0]), pieces[1..]);
    }
  }

  lemma {:induction false} SplitPieces(s: string)
    ensures forall x | x in Split(s) :: '/' !in x
  {
    if s != "" {
      SplitPieces(s[1..]);
      assert Split(s[1..])[0] in Split(s[1..]);
    }
  }

  /** Whatever the text, its clean form never climbs above the root. */
  lemma CleanIsCanonical(p: string)
    ensures Canonical(CleanSegments(p))
  {
    SplitPieces(p);
    WalkCanonical([], Split(p));
  }

  lemma {:induction false} SplitWord(w: string)
    requires '/' !in w
    ensures Split(w) == [w]
  {
    if w != "" {
      SplitWord(w[1..]);
      assert w == [w[0]] + w[1..];
    }
  }

  /** Split, one character at a time. */
  function AddChar(c: char, pieces: seq<string>): seq<string>
    requires |pieces| > 0
  {
    if c == '/' then [""] + pieces else [[c] + pieces[0]] + pieces[1..]
  }

  lemma SplitChar(c: char, s: string)
    ensures Split([c] + s) == AddChar(c, Split(s))
  {}

  lemma AddCharAppend(c: char, xs: seq<string>, ys: seq<string>)
    requires |xs| > 0
    ensures AddChar(c, xs + ys) == AddChar(c, xs) + ys
  {}

  lemma {:induction false} SplitAtSlash(a: string, b: string)
    ensures Split(a + "/" + b) == Split(a) + Split(b)
  {
    if a == "" {
      SplitChar('/', b);
      assert a + "/" + b == ['/'] + b;
    } else {
      SplitAtSlash(a[1..], b);
      SplitChar(a[0], a[1..] + "/" + b);
      SplitChar(a[0], a[1..]);
      AddCharAppend(a[0], Split(a[1..]), Split(b));
      assert a + "/" + b == [a[0]] + (a[1..] + "/" + b);
      assert a == [a[0]] + a[1..];
    }
  }

  lemma {:induction false} WalkAppend(acc: Path, xs: seq<string>, ys: seq<string>)
    ensures Walk(acc, xs + ys) == Walk(Walk(acc, xs), ys)
    decreases |xs|
  {
    if xs == [] {
      assert xs + ys == ys;
    } else {
      assert (xs + ys)[1..] == xs[1..] + ys;
      WalkAppend(Enter(acc, xs[0]), xs[1..], ys);
    }
  }

  /** Walking the text a/b is walking a, then b. */
  lemma WalkSlash(acc: Path, a: string, b: string)
    ensures Walk(acc, Split(a + "/" + b)) == Walk(Walk(acc, Split(a)), Split(b))
  {
    SplitAtSlash(a, b);
    WalkAppend(acc, Split(a), Split(b));
  }

  lemma WalkWord(acc: Path, w: Segment)
    requires ValidSegment(w)
    ensures Walk(acc, Split(w)) == acc + [w]
  {
    SplitWord(w);
    assert Walk(acc, [w]) == Walk(acc + [w], [w][1..]);
  }

  lemma WalkEmpty(acc: Path)
    ensures Walk(acc, Split("")) == acc
  {}

  /** ".." takes back the name before it. */
  lemma UpTakesBack(a: string, w: Segment, b: string)
    requires ValidSegment(w)
    ensures CleanSegments(a + "/" + w + "/../" + b) == CleanSegments(a + "/" + b)
  {
    var at := CleanSegments(a);
    WalkSlash([], a, b);
    WalkSlash([], a + "/" + w + "/..", b);
    assert a + "/" + w + "/.." + "/" + b == a + "/" + w + "/../" + b;
    WalkSlash([], a + "/" + w, "..");
    assert a + "/" + w + "/" + ".." == a + "/" + w + "/..";
    WalkSlash([], a, w);
    WalkWord(at, w);
    WalkDots(at + [w]);
  }

  /** At the root there is nothing to take back, and "." and doubled separators say nothing. */
  lemma DotsSayNothing(a: string, b: string)
    ensures CleanSegments("../" + b) == CleanSegments(b)
    ensures CleanSegments(a + "/./" + b) == CleanSegments(a + "/" + b)
    ensures CleanSegments(a + "//" + b) == CleanSegments(a + "/" + b)
  {
    assert "../" + b == ".." + "/" + b && a + "/./" + b == a + "/." + "/" + b && a + "/" + "." == a + "/.";
    assert a + "//" + b == a + "/" + "/" + b && a + "/" + "" == a + "/";
    WalkSlash([], "..", b);
    WalkDots([]);
    WalkSlash([], a, b);
    WalkSlash([], a + "/.", b);
    WalkSlash([], a, ".");
    WalkDots(CleanSegments(a));
    WalkSlash([], a + "/", b);
    WalkSlash([], a, "");
    WalkEmpty(CleanSegments(a));
  }

  lemma WalkDots(acc: Path)
    ensures Walk(acc, Split("..")) == if acc == [] then [] else acc[..|acc| - 1]
    ensures Walk(acc, Split(".")) == acc
  {
    SplitWord("..");
    SplitWord(".");
    var up := if acc == [] then [] else acc[..|acc| - 1];
    assert Walk(acc, [".."]) == Walk(up, [".."][1..]);
    assert Walk(acc, ["."]) == Walk(acc, ["."][1..]);
  }

  lemma {:induction false} SplitTail(segs: Path)
    requires Canonical(segs)
    ensures Split(Tail(segs)) == [""] + segs
    decreases |segs|
  {
    if segs != [] {
      var init, x := Parent(segs), segs[|segs| - 1];
      assert x in segs && segs == init + [x];
      SplitTail(init);
      TailAppend(init, [x]);
      assert Tail([x]) == "/" + x + Tail([x][1..]) == "/" + x;
      assert Tail(segs) == Tail(init) + "/" + x;
      SplitAtSlash(Tail(init), x);
      SplitWord(x);
    }
  }

  lemma {:induction false} WalkSegments(acc: Path, segs: Path)
    requires Canonical(segs)
    ensures Walk(acc, segs) == acc + segs
    decreases |segs|
  {
    if segs != [] {
      assert segs[0] in segs;
      WalkSegments(acc + [segs[0]], segs[1..]);
      assert acc + [segs[0]] + segs[1..] == acc + segs;
    } else {
      assert acc + segs == acc;
    }
  }

  lemma WalkTail(acc: Path, segs: Path)
    requires Canonical(segs)
    ensures Walk(acc, Split(Tail(segs))) == acc + segs
  {
    SplitTail(segs);
    assert ([""] + segs)[1..] == segs;
    WalkSegments(acc, segs);
  }

  /** The canonical text of a path reads back as that path. */
  lemma WalkRender(acc: Path, segs: Path)
    requires Canonical(segs)
    ensures Walk(acc, Split(Render(segs))) == acc + segs
  {
    if segs == [] {
      WalkSlash(acc, "", "");
      assert "" + "/" + "" == "/";
      WalkEmpty(acc);
    } else {
      WalkTail(acc, segs);
    }
  }

  lemma RenderReadsBack(segs: Path)
    requires Canonical(segs)
    ensures CleanSegments(Render(segs)) == segs
  {
    WalkRender([], segs);
  }

  lemma RenderInjective(a: Path, b: Path)
    requires Canonical(a) && Canonical(b)
    requires Render(a) == Render(b)
    ensures a == b
  {
    RenderReadsBack(a);
    RenderReadsBack(b);
  }

  lemma CleanFromRoot(p: string)
    ensures CleanSegments("/" + p) == CleanSegments(p)
  {}

  /** normalizeParentPath gives the canonical text of the segments of p, stays
      at or below the root, and changes nothing the second time. */
  lemma NormalizeIdempotent(p: string)
    ensures Canonical(CleanSegments(p))
    ensures NormalizeParentPath(p) == Render(CleanSegments(p))
    ensures NormalizeParentPath(NormalizeParentPath(p)) == NormalizeParentPath(p)
  {
    CleanIsCanonical(p);
    WalkEmpty([]);
    CleanFromRoot(p);
    var segs := CleanSegments(p);
    CleanFromRoot(Render(segs));
    RenderReadsBack(segs);
  }

  // ----- path.Join

  lemma JoinTwo(base: string, x: string)
    requires base != ""
    ensures CleanSegments(JoinText([base, x])) == Walk(CleanSegments(base), Split(x))
  {
    assert [base, x][1..] == [x];
    assert JoinText([x]) == x by {
      assert [x][1..] == [];
    }
    if x == "" {
      WalkEmpty(CleanSegments(base));
    } else {
      WalkSlash([], base, x);
    }
  }

  /** path.Join of a folder and a name is the text of the longer path. */
  lemma JoinName(parent: Path, name: Segment)
    requires Canonical(parent) && ValidSegment(name)
    ensures Join([Render(parent), name]) == Render(parent + [name])
  {
    JoinTwo(Render(parent), name);
    RenderReadsBack(parent);
    WalkWord(parent, name);
  }

  lemma {:induction false} WalkJoin(acc: Path, elems: seq<string>)
    ensures Walk(acc, Split(JoinText(elems))) == WalkAll(acc, elems)
    decreases |elems|
  {
    if elems == [] {
      WalkEmpty(acc);
    } else if elems[0] == "" {
      WalkJoin(acc, elems[1..]);
      WalkEmpty(acc);
    } else {
      var rest := JoinText(elems[1..]);
      var next := Walk(acc, Split(elems[0]));
      WalkJoin(next, elems[1..]);
      if rest == "" {
        WalkEmpty(next);
      } else {
        WalkSlash(acc, elems[0], rest);
      }
    }
  }

  function WalkAll(acc: Path, elems: seq<string>): Path
    decreases |elems|
  {
    if elems == [] then acc else WalkAll(Walk(acc, Split(elems[0])), elems[1..])
  }

  lemma WalkAllCons(acc: Path, x: string, rest: seq<string>)
    ensures WalkAll(acc, [x] + rest) == WalkAll(Walk(acc, Split(x)), rest)
  {}

  lemma {:induction false} WalkAllNames(acc: Path, names: Path)
    requires Canonical(names)
    ensures WalkAll(acc, names) == acc + names
    decreases |names|
  {
    if names == [] {
      assert acc + names == acc;
    } else {
      var x := names[0];
      assert x in names && names == [x] + names[1..];
      WalkWord(acc, x);
      WalkAllCons(acc, x, names[1..]);
      WalkAllNames(acc + [x], names[1..]);
      assert acc + [x] + names[1..] == acc + names;
    }
  }

  /** Joining names to the root gives the canonical text of their path. */
  lemma JoinNames(names: Path)
    requires Canonical(names)
    ensures Join(["/"] + names) == Render(names)
  {
    WalkJoin([], ["/"] + names);
    WalkAllCons([], "/", names);
    WalkRender([], []);
    WalkAllNames([], names);
    assert [] + names == names;
  }

  lemma {:induction false} WalkAllCat(acc: Path, a: seq<string>, b: seq<string>)
    ensures WalkAll(acc, a + b) == WalkAll(WalkAll(acc, a), b)
    decreases |a|
  {
    if a == [] {
      assert a + b == b;
    } else {
      assert (a + b)[1..] == a[1..] + b;
      WalkAllCat(Walk(acc, Split(a[0])), a[1..], b);
    }
  }

  /** Joining names, a clean path and a name keeps them apart. */
  lemma JoinParts(top: Path, parent: Path, name: Segment)
    requires Canonical(top) && Canonical(parent) && ValidSegment(name)
    ensures Join(["/"] + top + [Render(parent), name]) == Render(top + parent + [name])
  {
    var rest := [Render(parent)] + [name];
    assert ["/"] + top + [Render(parent), name] == ["/"] + (top + rest);
    WalkJoin([], ["/"] + (top + rest));
    WalkAllCons([], "/", top + rest);
    WalkRender([], []);
    WalkAllCat([], top, rest);
    WalkAllNames([], top);
    assert [] + top == top;
    WalkAllCons(top, Render(parent), [name]);
    WalkRender(top, parent);
    WalkAllNames(top + parent, [name]);
  }

  /** physicalPath keeps owner, folder and name apart: its text is that of the
      owner's segment, the folder's segments and the name. */
  lemma PhysicalPathSegments(owner: Segment, parent: Path, name: Segment)
    requires ValidSegment(owner) && Canonical(parent) && ValidSegment(name)
    ensures PhysicalPath(owner, Render(parent), name) == Render([owner] + parent + [name])
  {
    JoinParts([owner], parent, name);
    assert ["/"] + [owner] + [Render(parent), name] == ["/", owner, Render(parent), name];
  }

  /** Two items never share a physical path: in particular two owners never meet. */
  lemma PhysicalPathInjective(o1: Segment, p1: Path, n1: Segment, o2: Segment, p2: Path, n2: Segment)
    requires ValidSegment(o1) && Canonical(p1) && ValidSegment(n1)
    requires ValidSegment(o2) && Canonical(p2) && ValidSegment(n2)
    requires PhysicalPath(o1, Render(p1), n1) == PhysicalPath(o2, Render(p2), n2)
    ensures o1 == o2 && p1 == p2 && n1 == n2
  {
    PhysicalPathSegments(o1, p1, n1);
    PhysicalPathSegments(o2, p2, n2);
    var a, b := [o1] + p1 + [n1], [o2] + p2 + [n2];
    RenderInjective(a, b);
    assert a[0] == o1 && b[0] == o2 && a[|a| - 1] == n1 && b[|b| - 1] == n2;
    assert a[1..|a| - 1] == p1 && b[1..|b| - 1] == p2;
  }

  lemma ReservedSegments()
    ensures ValidSegment(VERSIONS) && ValidSegment(STAGING)
  {}

  lemma JoinFour(a: Segment, b: Segment, c: Segment, d: Segment)
    requires ValidSegment(a) && ValidSegment(b) && ValidSegment(c) && ValidSegment(d)
    ensures Join(["/", a, b, c, d]) == Render([a, b, c, d])
  {
    JoinNames([a, b, c, d]);
    assert ["/"] + [a, b, c, d] == ["/", a, b, c, d];
  }

  lemma VersionPathSegments(owner: Segment, fileId: Segment, num: nat)
    requires ValidSegment(owner) && ValidSegment(fileId)
    ensures VersionStoragePath(owner, fileId, num) == Render([owner, VERSIONS, fileId, Itoa(num)])
  {
    ItoaIsSegment(num);
    ReservedSegments();
    JoinFour(owner, VERSIONS, fileId, Itoa(num));
  }

  /** Exactly which uploads would land on a stored version: those into the
      reserved folder of that file, under the version's number. Nothing in
      validateName or normalizeParentPath refuses them. */
  lemma UploadHitsVersion(owner: Segment, parent: Path, name: Segment, owner': Segment, fileId: Segment, num: nat)
    requires ValidSegment(owner) && Canonical(parent) && ValidSegment(name)
    requires ValidSegment(owner') && ValidSegment(fileId)
    ensures PhysicalPath(owner, Render(parent), name) == VersionStoragePath(owner', fileId, num)
       <==> owner == owner' && parent == [VERSIONS, fileId] && name == Itoa(num)
  {
    PhysicalPathSegments(owner, parent, name);
    VersionPathSegments(owner', fileId, num);
    ItoaIsSegment(num);
    ReservedSegments();
    FourSegments(owner, parent, name, owner', VERSIONS, fileId, Itoa(num));
  }

  lemma FourSegments(owner: Segment, parent: Path, name: Segment, a: Segment, b: Segment, c: Segment, d: Segment)
    requires ValidSegment(owner) && Canonical(parent) && ValidSegment(name)
    requires ValidSegment(a) && ValidSegment(b) && ValidSegment(c) && ValidSegment(d)
    ensures Render([owner] + parent + [name]) == Render([a, b, c, d]) <==> owner == a && parent == [b, c] && name == d
  {
    var x, y := [owner] + parent + [name], [a, b, c, d];
    assert x[0] == owner && x[|x| - 1] == name && x[1..|x| - 1] == parent;
    assert y[1..|y| - 1] == [b, c];
    assert owner == a && parent == [b, c] && name == d ==> x == y;
    if Render(x) == Render(y) {
      RenderInjective(x, y);
    }
  }

  // ----- prefixes of text and of paths

  lemma {:induction false} TailAppend(a: Path, b: Path)
    ensures Tail(a + b) == Tail(a) + Tail(b)
  {
    if a == [] {
      assert a + b == b;
    } else {
      assert (a + b)[1..] == a[1..] + b;
      TailAppend(a[1..], b);
    }
  }

  /** Two words that end at a separator, or at the end of the text, are equal
      when the texts they start are. */
  lemma WordEnd(x: string, y: string, s: string, t: string)
    requires '/' !in x && '/' !in y
    requires s != "" && s[0] == '/'
    requires t != "" && t[0] == '/'
    requires x + s <= y + t
    ensures x == y && s <= t
  {
    var u, v := x + s, y + t;
    assert u[|x|] == '/' && v[|y|] == '/';
    assert x == u[..|x|] && y == v[..|y|];
    assert s == u[|x|..] && t == v[|y|..];
  }

  /** Text is a prefix up to a separator exactly when the segments are. */
  lemma {:induction false} TailPrefix(a: Path, b: Path)
    requires Canonical(a) && Canonical(b)
    ensures Tail(a) + "/" <= Tail(b) + "/" <==> a <= b
    decreases |a|
  {
    if a == [] {
      if b != [] {
        assert Tail(b)[0] == '/';
      }
    } else if b == [] {
      assert |Tail(a)| > 0;
    } else {
      var x, y := a[0], b[0];
      assert x in a && y in b;
      var s, t := Tail(a[1..]) + "/", Tail(b[1..]) + "/";
      TailPrefix(a[1..], b[1..]);
      assert Tail(a) + "/" == "/" + (x + s);
      assert Tail(b) + "/" == "/" + (y + t);
      assert s[0] == '/' && t[0] == '/' by {
        TailStart(a[1..]);
        TailStart(b[1..]);
      }
      if Tail(a) + "/" <= Tail(b) + "/" {
        assert ("/" + (x + s))[1..] == x + s && ("/" + (y + t))[1..] == y + t;
        WordEnd(x, y, s, t);
        assert a == [x] + a[1..] && b == [y] + b[1..];
      }
      if a <= b {
        assert x == y && a[1..] <= b[1..];
      }
    }
  }

  lemma TailStart(a: Path)
    ensures (Tail(a) + "/")[0] == '/'
  {}

  /** The cycle guard of MoveDirectory: the text test is the path test. */
  lemma GuardIsPathPrefix(src: Path, dst: Path)
    requires Canonical(src) && Canonical(dst) && src != [] && dst != []
    ensures Render(src) + "/" <= Render(dst) + "/" <==> src <= dst
  {
    TailPrefix(src, dst);
  }

  lemma BelowIsPathPrefix(src: Path, p: Path)
    requires Canonical(src) && Canonical(p) && src != []
    ensures Render(src) == Render(p) || Render(src) + "/" <= Render(p) <==> src <= p
  {
    TailPrefix(src, p);
    if p == [] {
      assert |Render(src)| >= 2 by { assert src[0] in src; }
    } else {
      if Render(src) + "/" <= Render(p) {
        assert Tail(src) + "/" <= Tail(p) + "/";
      }
      if src <= p && src != p {
        var rest := p[|src|..];
        assert p == src + rest;
        TailAppend(src, rest);
        assert Tail(rest)[0] == '/';
      }
    }
  }

  // ----- joins that must not leave their base

  /** SafeJoin for a root already absolute and clean. */
  function SafeJoin(root: string, rel: string): Option<string> {
    if '\0' in rel then None
    else
      var full := Join([root, Clean("/" + rel)]);
      if full != root && !(root + "/" <= full) then None else Some(full)
  }

  /** SafeJoin refuses NUL; otherwise it always answers the root extended by the
      clean segments of the request, except that a file system root as storage
      root refuses everything but itself. */
  lemma SafeJoinStaysInside(root: Path, rel: string)
    requires Canonical(root)
    ensures SafeJoin(Render(root), rel).Some? <==> '\0' !in rel && (root != [] || CleanSegments(rel) == [])
    ensures SafeJoin(Render(root), rel).Some? ==>
              SafeJoin(Render(root), rel).value == Render(root + CleanSegments(rel))
  {
    var segs := CleanSegments(rel);
    CleanIsCanonical(rel);
    CleanFromRoot(rel);
    JoinTwo(Render(root), Render(segs));
    RenderReadsBack(root);
    WalkRender(root, segs);
    if root != [] {
      BelowIsPathPrefix(root, root + segs);
    } else {
      assert root + segs == segs;
      if segs != [] {
        assert segs[0] in segs;
        assert Tail(segs)[1] == segs[0][0];
        assert segs[0][0] in segs[0];
      }
    }
  }

  /** resolveSharedPath: the folder asked for, or None when it is not at or below
      the shared folder. */
  function ResolveSharedPath(parent: string, name: string, sub: string): Option<string> {
    var root := Join([parent, name]);
    var target := NormalizeParentPath(Join([root, sub]));
    if target != root && !(root + "/" <= target) then None else Some(target)
  }

  /** A request inside a shared folder is answered exactly when its clean path
      lies at or below that folder, and then with that clean path. */
  lemma SharedPathStaysInside(parent: Path, name: Segment, sub: string)
    requires Canonical(parent) && ValidSegment(name)
    ensures var root := parent + [name];
            var target := Walk(root, Split(sub));
            && Canonical(target)
            && ResolveSharedPath(Render(parent), name, sub)
               == if root <= target then Some(Render(target)) else None
  {
    var root := parent + [name];
    JoinName(parent, name);
    JoinTwo(Render(root), sub);
    RenderReadsBack(root);
    SplitPieces(sub);
    WalkCanonical(root, Split(sub));
    var target := Walk(root, Split(sub));
    NormalizeIdempotent(Render(target));
    RenderReadsBack(target);
    BelowIsPathPrefix(root, target);
    if Render(target) == Render(root) { RenderInjective(target, root); }
  }
}
