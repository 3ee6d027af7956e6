/**
 OTB files: a tree of nodes, each written START, kind, properties, children, END.
 A property byte that looks like one of the three node characters is preceded by ESCAPE.

 The grammar is given once, as a concrete syntax (`Cst`) and its text (`Flatten`).
 The loader of src/fileloader.cpp is proved to accept exactly the texts of that
 grammar and to build exactly the node tree the grammar prescribes.
 */
module Otb {
  import opened Bytes

  const ESCAPE: byte := 0xFD
  const START: byte := 0xFE
  const END: byte := 0xFF
  const IDENTIFIER_SIZE := 4
  // identifier, START, kind, END; a file of this size or less is refused
  const MINIMAL_SIZE := 7

  predicate IsNodeChar(b: byte) {
    b == ESCAPE || b == START || b == END
  }

  // ---------------------------------------------------------------- grammar

  /** One property byte as it stands in the file: bare, or preceded by ESCAPE. */
  datatype Mark = Plain(b: byte) | Escaped(b: byte) {
    predicate Legal() {
      Plain? ==> !IsNodeChar(b)
    }
    function Text(): seq<byte> {
      if Plain? then [b] else [ESCAPE, b]
    }
  }

  /** A node of the file. The bytes that follow a child are skipped by the loader: `junk`. */
  datatype Cst = Cst(kind: byte, props: seq<Mark>, kids: seq<Kid>)
  datatype Kid = Kid(node: Cst, junk: seq<Mark>)

  predicate LegalMarks(ms: seq<Mark>) {
    forall m <- ms :: m.Legal()
  }

  predicate LegalNode(c: Cst) {
    LegalMarks(c.props) && LegalKids(c.kids)
  }

  predicate LegalKids(kids: seq<Kid>) {
    forall k <- kids :: LegalNode(k.node) && LegalMarks(k.junk)
  }

  function MarksText(ms: seq<Mark>): seq<byte> {
    if ms == [] then [] else ms[0].Text() + MarksText(ms[1..])
  }

  function Flatten(c: Cst): seq<byte> {
    [START, c.kind] + MarksText(c.props) + KidsText(c.kids) + [END]
  }

  function KidText(k: Kid): seq<byte> {
    Flatten(k.node) + MarksText(k.junk)
  }

  function KidsText(kids: seq<Kid>): seq<byte> {
    if kids == [] then [] else KidText(kids[0]) + KidsText(kids[1..])
  }

  /** A whole file after its identifier: one root, then bytes that hold no node. */
  ghost predicate Derives(text: seq<byte>, root: Cst, tail: seq<Mark>) {
    LegalNode(root) && LegalMarks(tail) && text == Flatten(root) + MarksText(tail)
  }

  // ------------------------------------------------------- recogniser, on values

  /** What has been read so far: the open nodes from the root inwards, or the closed root. */
  datatype Progress = Open(frames: seq<Cst>) | Closed(root: Cst, tail: seq<Mark>)

  predicate Live(p: Progress) {
    p.Open? ==> p.frames != []
  }

  ghost predicate Wf(p: Progress)
    ensures Wf(p) ==> Live(p)
  {
    match p
    case Open(frames) => frames != [] && forall f <- frames :: LegalNode(f)
    case Closed(root, tail) => LegalNode(root) && LegalMarks(tail)
  }

  function OpenText(f: Cst): seq<byte> {
    [START, f.kind] + MarksText(f.props) + KidsText(f.kids)
  }

  function FramesText(frames: seq<Cst>): seq<byte> {
    if frames == [] then [] else FramesText(frames[..|frames| - 1]) + OpenText(frames[|frames| - 1])
  }

  function Text(p: Progress): seq<byte> {
    match p
    case Open(frames) => FramesText(frames)
    case Closed(root, tail) => Flatten(root) + MarksText(tail)
  }

  function AddJunk(kids: seq<Kid>, m: Mark): seq<Kid>
    requires kids != []
  {
    var last := kids[|kids| - 1];
    kids[..|kids| - 1] + [Kid(last.node, last.junk + [m])]
  }

  function AddMarkTo(f: Cst, m: Mark): Cst {
    if f.kids == [] then f.(props := f.props + [m]) else f.(kids := AddJunk(f.kids, m))
  }

  function AddMark(p: Progress, m: Mark): Progress
    requires Live(p)
  {
    match p
    case Open(frames) => var top := |frames| - 1; Open(frames[..top] + [AddMarkTo(frames[top], m)])
    case Closed(root, tail) => Closed(root, tail + [m])
  }

  function AddKid(f: Cst, c: Cst): Cst {
    f.(kids := f.kids + [Kid(c, [])])
  }

  function Push(frames: seq<Cst>, kind: byte): Progress {
    Open(frames + [Cst(kind, [], [])])
  }

  function Pop(frames: seq<Cst>): Progress
    requires frames != []
  {
    var top := |frames| - 1;
    if top == 0 then Closed(frames[0], [])
    else Open(frames[..top - 1] + [AddKid(frames[top - 1], frames[top])])
  }

  /** One turn of the loop of `parseTree`: the new progress and the bytes consumed; None where it throws. */
  function Step(p: Progress, rest: seq<byte>): (r: Option<(Progress, nat)>)
    requires Live(p) && rest != []
    ensures r.Some? ==> Live(r.value.0) && 1 <= r.value.1 <= |rest|
  {
    if rest[0] == START then
      if p.Closed? || |rest| == 1 then None else Some((Push(p.frames, rest[1]), 2))
    else if rest[0] == END then
      if p.Closed? then None else Some((Pop(p.frames), 1))
    else if rest[0] == ESCAPE then
      if |rest| == 1 then None else Some((AddMark(p, Escaped(rest[1])), 2))
    else Some((AddMark(p, Plain(rest[0])), 1))
  }

  /** The whole loop on the text still to be read. */
  function Run(p: Progress, rest: seq<byte>): Option<Progress>
    requires Live(p)
    decreases |rest|
  {
    if rest == [] then (if p.Closed? then Some(p) else None)
    else
      match Step(p, rest)
      case None => None
      case Some((q, n)) => Run(q, rest[n..])
  }

  lemma Regroup(a: seq<byte>, b: seq<byte>, c: seq<byte>, d: seq<byte>)
    ensures a + (b + c + d) == a + b + c + d
  {
  }

  lemma {:induction false} MarksTextAppend(a: seq<Mark>, b: seq<Mark>)
    ensures MarksText(a + b) == MarksText(a) + MarksText(b)
  {
    if a == [] {
      assert a + b == b;
    } else {
      hide Mark.Text;
      MarksTextAppend(a[1..], b);
      assert (a + b)[1..] == a[1..] + b && (a + b)[0] == a[0];
      Assoc(a[0].Text(), MarksText(a[1..]), MarksText(b));
    }
  }

  lemma {:induction false} KidsTextAppend(a: seq<Kid>, b: seq<Kid>)
    ensures KidsText(a + b) == KidsText(a) + KidsText(b)
  {
    if a == [] {
      assert a + b == b;
    } else {
      hide KidText;
      KidsTextAppend(a[1..], b);
      assert (a + b)[1..] == a[1..] + b && (a + b)[0] == a[0];
      Assoc(KidText(a[0]), KidsText(a[1..]), KidsText(b));
    }
  }

  lemma OneKidText(k: Kid)
    ensures KidsText([k]) == KidText(k)
  {
    assert [k][1..] == [];
  }

  lemma OneMarkText(m: Mark)
    ensures MarksText([m]) == m.Text()
  {
    assert [m][1..] == [];
  }

  lemma AddMarkToText(f: Cst, m: Mark)
    requires LegalNode(f) && m.Legal()
    ensures LegalNode(AddMarkTo(f, m)) && OpenText(AddMarkTo(f, m)) == OpenText(f) + m.Text()
  {
    OneMarkText(m);
    if f.kids == [] {
      hide Mark.Text, MarksText;
      MarksTextAppend(f.props, [m]);
      assert LegalMarks(f.props + [m]);
      assert KidsText(f.kids) == [];
      Assoc([START, f.kind], MarksText(f.props), m.Text());
    } else {
      hide Mark.Text, MarksText, KidsText, Flatten;
      var last := f.kids[|f.kids| - 1];
      var before := f.kids[..|f.kids| - 1];
      var grown := Kid(last.node, last.junk + [m]);
      assert f.kids == before + [last];
      KidsTextAppend(before, [last]);
      KidsTextAppend(before, [grown]);
      OneKidText(last);
      OneKidText(grown);
      MarksTextAppend(last.junk, [m]);
      Assoc(Flatten(last.node), MarksText(last.junk), m.Text());
      Assoc(KidsText(before), KidText(last), m.Text());
      Assoc([START, f.kind] + MarksText(f.props), KidsText(f.kids), m.Text());
      assert LegalNode(last.node) && LegalMarks(last.junk + [m]);
      assert LegalKids(before + [grown]);
    }
  }

  lemma {:induction false} FramesTextTop(below: seq<Cst>, f: Cst)
    ensures FramesText(below + [f]) == FramesText(below) + OpenText(f)
  {
    assert (below + [f])[..|below|] == below;
  }

  // Reading a mark appends its text to what has been read.
  lemma AddMarkText(p: Progress, m: Mark)
    requires Wf(p) && m.Legal()
    ensures Wf(AddMark(p, m)) && Text(AddMark(p, m)) == Text(p) + m.Text()
  {
    hide Mark.Text, OpenText, AddMarkTo, FramesText, MarksText, Flatten;
    match p {
      case Closed(root, tail) =>
        OneMarkText(m);
        MarksTextAppend(tail, [m]);
        Assoc(Flatten(root), MarksText(tail), m.Text());
        assert LegalMarks(tail + [m]);
      case Open(frames) =>
        var top := |frames| - 1;
        var f, below := frames[top], frames[..top];
        assert frames == below + [f];
        AddMarkToText(f, m);
        FramesTextTop(below, f);
        FramesTextTop(below, AddMarkTo(f, m));
        Assoc(FramesText(below), OpenText(f), m.Text());
    }
  }

  lemma PushText(frames: seq<Cst>, kind: byte)
    requires Wf(Open(frames))
    ensures Wf(Push(frames, kind)) && Text(Push(frames, kind)) == Text(Open(frames)) + [START, kind]
  {
    FramesTextTop(frames, Cst(kind, [], []));
    assert OpenText(Cst(kind, [], [])) == [START, kind];
  }

  lemma AddKidText(g: Cst, f: Cst)
    requires LegalNode(g) && LegalNode(f)
    ensures LegalNode(AddKid(g, f)) && OpenText(AddKid(g, f)) == OpenText(g) + OpenText(f) + [END]
  {
    KidsTextAppend(g.kids, [Kid(f, [])]);
    OneKidText(Kid(f, []));
    assert Flatten(f) == OpenText(f) + [END];
    assert KidText(Kid(f, [])) == Flatten(f) + [];
    assert LegalKids(g.kids + [Kid(f, [])]);
  }

  lemma PopText(frames: seq<Cst>)
    requires Wf(Open(frames))
    ensures Wf(Pop(frames)) && Text(Pop(frames)) == Text(Open(frames)) + [END]
  {
    var top := |frames| - 1;
    var f, below := frames[top], frames[..top];
    assert frames == below + [f];
    FramesTextTop(below, f);
    if top == 0 {
      assert Flatten(f) + [] == OpenText(f) + [END];
    } else {
      var g, lower := frames[top - 1], frames[..top - 1];
      assert below == lower + [g];
      AddKidText(g, f);
      FramesTextTop(lower, g);
      FramesTextTop(lower, AddKid(g, f));
      Regroup(FramesText(lower), OpenText(g), OpenText(f), [END]);
      hide OpenText, AddKid, FramesText, Flatten;
    }
  }

  lemma StepText(p: Progress, rest: seq<byte>)
    requires Wf(p) && rest != [] && Step(p, rest).Some?
    ensures var (q, n) := Step(p, rest).value; Wf(q) && Text(q) == Text(p) + rest[..n]
  {
    hide Text, Push, Pop, AddMark, FramesText;
    if rest[0] == START {
      PushText(p.frames, rest[1]);
      assert rest[..2] == [START, rest[1]];
    } else if rest[0] == END {
      PopText(p.frames);
    } else if rest[0] == ESCAPE {
      AddMarkText(p, Escaped(rest[1]));
      assert rest[..2] == [ESCAPE, rest[1]];
    } else {
      AddMarkText(p, Plain(rest[0]));
    }
  }

  /** Soundness: what the recogniser returns is a derivation of exactly the text it read. */
  lemma {:induction false} RunSound(p: Progress, rest: seq<byte>)
    requires Wf(p) && Run(p, rest).Some?
    ensures Run(p, rest).value.Closed? && Wf(Run(p, rest).value)
    ensures Text(Run(p, rest).value) == Text(p) + rest
    decreases |rest|
  {
    hide Text, Step, Wf;
    if rest != [] {
      StepText(p, rest);
      var (q, n) := Step(p, rest).value;
      RunSound(q, rest[n..]);
      assert rest == rest[..n] + rest[n..];
    }
  }

  function AddMarks(p: Progress, ms: seq<Mark>): Progress
    requires Live(p)
    ensures Live(AddMarks(p, ms))
    decreases |ms|
  {
    if ms == [] then p else AddMarks(AddMark(p, ms[0]), ms[1..])
  }

  lemma RunMark(p: Progress, m: Mark, rest: seq<byte>)
    requires Live(p) && m.Legal()
    ensures Live(AddMark(p, m)) && Run(p, m.Text() + rest) == Run(AddMark(p, m), rest)
  {
    assert (m.Text() + rest)[|m.Text()|..] == rest;
  }

  lemma RunStart(below: seq<Cst>, kind: byte, rest: seq<byte>)
    requires below != []
    ensures Run(Open(below), [START, kind] + rest) == Run(Push(below, kind), rest)
  {
    assert ([START, kind] + rest)[2..] == rest;
  }

  lemma RunEnd(frames: seq<Cst>, rest: seq<byte>)
    requires frames != []
    ensures Live(Pop(frames)) && Run(Open(frames), [END] + rest) == Run(Pop(frames), rest)
  {
    assert ([END] + rest)[1..] == rest;
  }

  lemma {:induction false} RunMarks(p: Progress, ms: seq<Mark>, rest: seq<byte>)
    requires Live(p) && LegalMarks(ms)
    ensures Run(p, MarksText(ms) + rest) == Run(AddMarks(p, ms), rest)
    decreases |ms|
  {
    hide Run, AddMark, Live;
    if ms == [] {
      assert MarksText(ms) + rest == rest;
    } else {
      RunMark(p, ms[0], MarksText(ms[1..]) + rest);
      RunMarks(AddMark(p, ms[0]), ms[1..], rest);
      assert MarksText(ms) + rest == ms[0].Text() + (MarksText(ms[1..]) + rest);
    }
  }

  // Marks read before the first child are properties, marks read after a child are junk.
  lemma {:induction false} AddMarksToFresh(below: seq<Cst>, f: Cst, ms: seq<Mark>)
    requires f.kids == []
    ensures AddMarks(Open(below + [f]), ms) == Open(below + [f.(props := f.props + ms)])
    decreases |ms|
  {
    if ms == [] {
      assert f.props + ms == f.props;
    } else {
      var g := f.(props := f.props + [ms[0]]);
      assert (below + [f])[..|below|] == below;
      AddMarksToFresh(below, g, ms[1..]);
      assert g.props + ms[1..] == f.props + ms;
    }
  }

  lemma {:induction false} AddMarksToKids(below: seq<Cst>, f: Cst, before: seq<Kid>, last: Kid, ms: seq<Mark>)
    requires f.kids == before + [last]
    ensures AddMarks(Open(below + [f]), ms)
         == Open(below + [f.(kids := before + [Kid(last.node, last.junk + ms)])])
    decreases |ms|
  {
    if ms == [] {
      assert last.junk + ms == last.junk;
    } else {
      var k := Kid(last.node, last.junk + [ms[0]]);
      var g := f.(kids := before + [k]);
      assert (below + [f])[..|below|] == below;
      assert f.kids[..|f.kids| - 1] == before;
      AddMarksToKids(below, g, before, k, ms[1..]);
      assert k.junk + ms[1..] == last.junk + ms;
    }
  }

  lemma {:induction false} AddMarksToTail(root: Cst, tail: seq<Mark>, ms: seq<Mark>)
    ensures AddMarks(Closed(root, tail), ms) == Closed(root, tail + ms)
    decreases |ms|
  {
    if ms == [] {
      assert tail + ms == tail;
    } else {
      AddMarksToTail(root, tail + [ms[0]], ms[1..]);
      assert tail + [ms[0]] + ms[1..] == tail + ms;
    }
  }

  // What closing the node c on top of `below` leaves.
  function Plug(below: seq<Cst>, c: Cst): Progress {
    Pop(below + [c])
  }

  // The open node f, then the text of its children from `kids` on.
  lemma {:induction false} RunKids(below: seq<Cst>, f: Cst, kids: seq<Kid>, rest: seq<byte>)
    requires LegalKids(kids)
    ensures Run(Open(below + [f]), KidsText(kids) + rest) == Run(Open(below + [f.(kids := f.kids + kids)]), rest)
    decreases kids
  {
    hide Run, Flatten, MarksText, AddMarks, Pop;
    if kids == [] {
      assert f.kids + kids == f.kids;
      assert KidsText(kids) + rest == rest;
    } else {
      var k := kids[0];
      var more := KidsText(kids[1..]) + rest;
      Assoc(KidText(k), KidsText(kids[1..]), rest);
      Assoc(Flatten(k.node), MarksText(k.junk), more);
      hide KidsText;
      RunNode(below + [f], k.node, MarksText(k.junk) + more);
      PlugInner(below, f, k.node);
      RunMarks(Open(below + [AddKid(f, k.node)]), k.junk, more);
      AddMarksToKids(below, AddKid(f, k.node), f.kids, Kid(k.node, []), k.junk);
      assert [] + k.junk == k.junk;
      var g := f.(kids := f.kids + [k]);
      RunKids(below, g, kids[1..], rest);
      assert g.kids + kids[1..] == f.kids + kids;
    }
  }

  lemma PlugInner(below: seq<Cst>, f: Cst, c: Cst)
    ensures Plug(below + [f], c) == Open(below + [AddKid(f, c)])
  {
    var frames := below + [f] + [c];
    assert frames[..|frames| - 2] == below;
  }

  lemma {:induction false} RunNode(below: seq<Cst>, c: Cst, rest: seq<byte>)
    requires LegalNode(c) && below != []
    ensures Live(Plug(below, c)) && Run(Open(below), Flatten(c) + rest) == Run(Plug(below, c), rest)
    decreases c
  {
    hide Run, Plug, Push, LegalNode;
    var body := MarksText(c.props) + (KidsText(c.kids) + ([END] + rest));
    NodeText(c, rest);
    RunStart(below, c.kind, body);
    RunBody(below, c, rest);
  }

  lemma NodeText(c: Cst, rest: seq<byte>)
    ensures Flatten(c) + rest == [START, c.kind] + (MarksText(c.props) + (KidsText(c.kids) + ([END] + rest)))
  {
    hide MarksText, KidsText;
    var a, b := MarksText(c.props), KidsText(c.kids);
    assert Flatten(c) + rest == [START, c.kind] + (a + (b + ([END] + rest)));
  }

  // The text of c after its START and kind.
  lemma {:induction false} RunBody(below: seq<Cst>, c: Cst, rest: seq<byte>)
    requires LegalNode(c)
    ensures Live(Plug(below, c))
    ensures Run(Push(below, c.kind), MarksText(c.props) + (KidsText(c.kids) + ([END] + rest))) == Run(Plug(below, c), rest)
    decreases c, 0
  {
    var bare := Cst(c.kind, [], []);
    var withProps := bare.(props := c.props);
    RunMarks(Push(below, c.kind), c.props, KidsText(c.kids) + ([END] + rest));
    AddMarksToFresh(below, bare, c.props);
    assert [] + c.props == c.props && [] + c.kids == c.kids;
    RunKids(below, withProps, c.kids, [END] + rest);
    RunEnd(below + [c], rest);
    hide Run, KidsText, MarksText;
    assert withProps.(kids := withProps.kids + c.kids) == c;
  }

  // ---------------------------------------------------------------- what the loader must build

  /** A node as the loader stores it: the extent of its raw properties, and its children. */
  datatype Node = Node(kind: byte, propsBegin: nat, propsEnd: nat, children: seq<Node>)

  function NodeOf(c: Cst, at: nat): Node {
    var end := at + 2 + |MarksText(c.props)|;
    Node(c.kind, at + 2, end, KidsNodes(c.kids, end))
  }

  function KidsNodes(kids: seq<Kid>, at: nat): seq<Node> {
    if kids == [] then []
    else
      [NodeOf(kids[0].node, at)] + KidsNodes(kids[1..], at + |KidText(kids[0])|)
  }

  /** The test of the loader's constructor: size, and identifier; all zeros stand for any identifier. */
  predicate Admits(file: seq<byte>, accepted: seq<byte>) {
    |file| > MINIMAL_SIZE && (file[..IDENTIFIER_SIZE] == accepted || file[..IDENTIFIER_SIZE] == [0, 0, 0, 0])
  }

  /** The loader on the whole file; None where the source throws InvalidOTBFormat. */
  function Load(file: seq<byte>, accepted: seq<byte>): Option<Node> {
    if Admits(file, accepted) then Parse(file) else None
  }

  /** What follows the identifier. */
  function Parse(file: seq<byte>): Option<Node>
    requires |file| > MINIMAL_SIZE
  {
    if file[IDENTIFIER_SIZE] != START then None
    else
      match Run(Open([Cst(file[5], [], [])]), file[6..])
      case Some(Closed(root, _)) => Some(NodeOf(root, IDENTIFIER_SIZE))
      case _ => None
  }

  lemma StartText(kind: byte)
    ensures Wf(Open([Cst(kind, [], [])])) && Text(Open([Cst(kind, [], [])])) == [START, kind]
  {
    FramesTextTop([], Cst(kind, [], []));
    assert [] + [Cst(kind, [], [])] == [Cst(kind, [], [])];
  }

  // What is derivable is accepted, with the derivation's own root.
  lemma DerivedIsRun(text: seq<byte>, root: Cst, tail: seq<Mark>)
    requires Derives(text, root, tail)
    ensures |text| > 2 && text[0] == START
    ensures Run(Open([Cst(text[1], [], [])]), text[2..]) == Some(Closed(root, tail))
  {
    var body := MarksText(root.props) + (KidsText(root.kids) + ([END] + MarksText(tail)));
    assert text == [START, root.kind] + body;
    assert ([START, root.kind] + body)[2..] == body;
    RunBody([], root, MarksText(tail));
    assert [] + [Cst(root.kind, [], [])] == [Cst(root.kind, [], [])];
    assert Plug([], root) == Closed(root, []);
    RunMarks(Closed(root, []), tail, []);
    AddMarksToTail(root, [], tail);
    assert [] + tail == tail && MarksText(tail) + [] == MarksText(tail);
  }

  /** The grammar is unambiguous. */
  lemma Unambiguous(text: seq<byte>, c: Cst, t: seq<Mark>, c': Cst, t': seq<Mark>)
    requires Derives(text, c, t) && Derives(text, c', t')
    ensures c == c' && t == t'
  {
    DerivedIsRun(text, c, t);
    DerivedIsRun(text, c', t');
  }

  /**
   The loader accepts exactly the files of more than the minimal size that begin with the identifier asked for,
   or with zeros, and are derivable from there on.
   */
  lemma LoadAccepts(file: seq<byte>, accepted: seq<byte>)
    ensures Load(file, accepted).Some? <==>
      && |file| > MINIMAL_SIZE && (file[..IDENTIFIER_SIZE] == accepted || file[..IDENTIFIER_SIZE] == [0, 0, 0, 0])
      && exists c, t :: Derives(file[IDENTIFIER_SIZE..], c, t)
  {
    if Admits(file, accepted) {
      ParseAccepts(file);
    }
  }

  lemma ParseAccepts(file: seq<byte>)
    requires |file| > MINIMAL_SIZE
    ensures Parse(file).Some? <==> exists c, t :: Derives(file[IDENTIFIER_SIZE..], c, t)
  {
    var text := file[IDENTIFIER_SIZE..];
    if Parse(file).Some? {
      StartText(file[5]);
      assert [Cst(file[5], [], [])] != [];
      RunSound(Open([Cst(file[5], [], [])]), file[6..]);
      assert text == [START, file[5]] + file[6..];
      var p := Run(Open([Cst(file[5], [], [])]), file[6..]).value;
      assert Derives(text, p.root, p.tail);
    }
    if exists c, t :: Derives(text, c, t) {
      var c, t :| Derives(text, c, t);
      DerivedIsRun(text, c, t);
      assert text[2..] == file[6..];
    }
  }

  lemma LoadBuilds(file: seq<byte>, c: Cst, t: seq<Mark>)
    requires |file| > MINIMAL_SIZE && Derives(file[IDENTIFIER_SIZE..], c, t)
    ensures Parse(file) == Some(NodeOf(c, IDENTIFIER_SIZE))
  {
    DerivedIsRun(file[IDENTIFIER_SIZE..], c, t);
    assert file[IDENTIFIER_SIZE..][2..] == file[6..];
  }

  // ---------------------------------------------------------------- properties

  function Values(ms: seq<Mark>): seq<byte> {
    seq(|ms|, i requires 0 <= i < |ms| => ms[i].b)
  }

  /** The filter of `getProps`: drop an ESCAPE unless the byte before it was a dropped one. */
  function Unescape(raw: seq<byte>, lastEscaped: bool): seq<byte> {
    if raw == [] then []
    else
      var escaped := raw[0] == ESCAPE && !lastEscaped;
      (if escaped then [] else [raw[0]]) + Unescape(raw[1..], escaped)
  }

  lemma UnescapeAt(raw: seq<byte>, i: nat, lastEscaped: bool)
    requires i < |raw|
    ensures var escaped := raw[i] == ESCAPE && !lastEscaped;
      Unescape(raw[i..], lastEscaped) == (if escaped then [] else [raw[i]]) + Unescape(raw[i + 1..], escaped)
  {
    assert raw[i..][1..] == raw[i + 1..] && raw[i..][0] == raw[i];
  }

  lemma UnescapeEnd(raw: seq<byte>, lastEscaped: bool)
    ensures Unescape(raw[|raw|..], lastEscaped) == []
  {
  }

  lemma {:induction false} UnescapeMarks(ms: seq<Mark>)
    requires LegalMarks(ms)
    ensures Unescape(MarksText(ms), false) == Values(ms)
  {
    if ms != [] {
      UnescapeMarks(ms[1..]);
      var m := ms[0];
      var more := MarksText(ms[1..]);
      assert Values(ms) == [m.b] + Values(ms[1..]);
      assert MarksText(ms) == m.Text() + more;
      if m.Escaped? {
        assert (m.Text() + more)[1..] == [m.b] + more;
        assert ([m.b] + more)[1..] == more;
        assert Unescape([m.b] + more, true) == [m.b] + Unescape(more, false);
      } else {
        assert (m.Text() + more)[1..] == more && (m.Text() + more)[0] == m.b;
        assert m.Legal();
      }
    }
  }

  // ---------------------------------------------------------------- round trip

  /** The tree a file stands for, free of offsets and escapes. */
  datatype Tree = Tree(kind: byte, props: seq<byte>, kids: seq<Tree>)

  function Erase(c: Cst): Tree {
    Tree(c.kind, Values(c.props), EraseAll(c.kids))
  }

  function EraseAll(kids: seq<Kid>): seq<Tree> {
    if kids == [] then [] else [Erase(kids[0].node)] + EraseAll(kids[1..])
  }

  predicate InFile(n: Node, size: nat) {
    n.propsBegin <= n.propsEnd <= size && AllInFile(n.children, size)
  }

  predicate AllInFile(ns: seq<Node>, size: nat) {
    ns != [] ==> InFile(ns[0], size) && AllInFile(ns[1..], size)
  }

  /** What a client reads through the node: its kind, its unescaped properties, its children. */
  function Decoded(file: seq<byte>, n: Node): Tree
    requires InFile(n, |file|)
    decreases n
  {
    Tree(n.kind, Unescape(file[n.propsBegin..n.propsEnd], false), DecodedAll(file, n.children))
  }

  function DecodedAll(file: seq<byte>, ns: seq<Node>): seq<Tree>
    requires AllInFile(ns, |file|)
    decreases ns
  {
    if ns == [] then [] else [Decoded(file, ns[0])] + DecodedAll(file, ns[1..])
  }

  lemma {:induction false} DecodeNode(file: seq<byte>, c: Cst, at: nat)
    requires LegalNode(c)
    requires at + |Flatten(c)| <= |file| && file[at..at + |Flatten(c)|] == Flatten(c)
    ensures InFile(NodeOf(c, at), |file|) && Decoded(file, NodeOf(c, at)) == Erase(c)
    decreases c
  {
    var n := |MarksText(c.props)|;
    hide Flatten, KidsText, MarksText, KidsNodes, DecodedAll, AllInFile, EraseAll, Values, LegalMarks, LegalKids, Unescape;
    NodeSlices(file, c, at);
    UnescapeMarks(c.props);
    DecodeKids(file, c.kids, at + 2 + n);
  }

  lemma NodeSlices(file: seq<byte>, c: Cst, at: nat)
    requires at + |Flatten(c)| <= |file| && file[at..at + |Flatten(c)|] == Flatten(c)
    ensures var props := at + 2; var kids := props + |MarksText(c.props)|;
      && kids + |KidsText(c.kids)| <= |file| && file[props..kids] == MarksText(c.props)
      && file[kids..kids + |KidsText(c.kids)|] == KidsText(c.kids)
  {
    hide MarksText, KidsText;
    var n, k := |MarksText(c.props)|, |KidsText(c.kids)|;
    Slice(file, at, Flatten(c), 2, 2 + n);
    Slice(file, at, Flatten(c), 2 + n, 2 + n + k);
    assert Flatten(c)[2..2 + n] == MarksText(c.props);
    assert Flatten(c)[2 + n..2 + n + k] == KidsText(c.kids);
  }

  lemma Slice(file: seq<byte>, at: nat, text: seq<byte>, i: nat, j: nat)
    requires i <= j <= |text| && at + |text| <= |file| && file[at..at + |text|] == text
    ensures file[at + i..at + j] == text[i..j]
  {
    forall k | i <= k < j
      ensures file[at + k] == text[k]
    {
      assert file[at..at + |text|][k] == text[k];
    }
  }

  lemma {:induction false} DecodeKids(file: seq<byte>, kids: seq<Kid>, at: nat)
    requires LegalKids(kids)
    requires at + |KidsText(kids)| <= |file| && file[at..at + |KidsText(kids)|] == KidsText(kids)
    ensures AllInFile(KidsNodes(kids, at), |file|) && DecodedAll(file, KidsNodes(kids, at)) == EraseAll(kids)
    decreases kids
  {
    hide Flatten, MarksText, KidsText, KidText, Decoded, Erase, InFile, NodeOf, LegalNode, LegalMarks, KidsNodes;
    KidsNodesCons(kids, at);
    if kids != [] {
      var next := |KidText(kids[0])|;
      KidSlices(file, kids, at);
      DecodeNode(file, kids[0].node, at);
      DecodeKids(file, kids[1..], at + next);
      var n, rest := NodeOf(kids[0].node, at), KidsNodes(kids[1..], at + next);
      assert ([n] + rest)[1..] == rest;
    }
  }

  lemma KidSlices(file: seq<byte>, kids: seq<Kid>, at: nat)
    requires kids != [] && at + |KidsText(kids)| <= |file| && file[at..at + |KidsText(kids)|] == KidsText(kids)
    ensures var size, next := |Flatten(kids[0].node)|, at + |KidText(kids[0])|;
      && next + |KidsText(kids[1..])| == at + |KidsText(kids)|
      && at + size <= |file| && file[at..at + size] == Flatten(kids[0].node)
      && file[next..next + |KidsText(kids[1..])|] == KidsText(kids[1..])
  {
    hide Flatten, MarksText;
    var size := |Flatten(kids[0].node)|;
    var next := |KidText(kids[0])|;
    Slice(file, at, KidsText(kids), 0, size);
    Slice(file, at, KidsText(kids), next, |KidsText(kids)|);
    assert KidsText(kids)[..size] == Flatten(kids[0].node);
    assert KidsText(kids)[next..] == KidsText(kids[1..]);
  }

  /** A legal way to write a tree: ESCAPE before exactly the bytes that need it. */
  function EncodeProps(props: seq<byte>): seq<Mark> {
    seq(|props|, i requires 0 <= i < |props| => if IsNodeChar(props[i]) then Escaped(props[i]) else Plain(props[i]))
  }

  function Encode(t: Tree): Cst {
    Cst(t.kind, EncodeProps(t.props), EncodeAll(t.kids))
  }

  function EncodeAll(ts: seq<Tree>): seq<Kid> {
    if ts == [] then [] else [Kid(Encode(ts[0]), [])] + EncodeAll(ts[1..])
  }

  lemma {:induction false} EncodeLegal(t: Tree)
    ensures LegalNode(Encode(t)) && Erase(Encode(t)) == t
    decreases t
  {
    EncodeAllLegal(t.kids);
    assert Values(EncodeProps(t.props)) == t.props;
  }

  lemma {:induction false} EncodeAllLegal(ts: seq<Tree>)
    ensures LegalKids(EncodeAll(ts)) && EraseAll(EncodeAll(ts)) == ts
    decreases ts
  {
    if ts != [] {
      EncodeLegal(ts[0]);
      EncodeAllLegal(ts[1..]);
      assert EncodeAll(ts)[1..] == EncodeAll(ts[1..]);
    }
  }

  /** Any file that derives c, however it escapes and whatever junk it holds, decodes to c's tree. */
  lemma DerivedDecodes(file: seq<byte>, c: Cst, t: seq<Mark>)
    requires |file| > MINIMAL_SIZE && Derives(file[IDENTIFIER_SIZE..], c, t)
    ensures Parse(file).Some?
    ensures InFile(Parse(file).value, |file|) && Decoded(file, Parse(file).value) == Erase(c)
  {
    LoadBuilds(file, c, t);
    var text := Flatten(c);
    assert file[IDENTIFIER_SIZE..][..|text|] == text;
    assert file[IDENTIFIER_SIZE..IDENTIFIER_SIZE + |text|] == text;
    DecodeNode(file, c, IDENTIFIER_SIZE);
  }

  /**
   Round trip. A tree written canonically behind the identifier asked for, or behind zeros, loads back as
   itself, except the childless root without properties: its seven bytes fall to the size test.
   */
  lemma RoundTrip(identifier: seq<byte>, accepted: seq<byte>, t: Tree)
    requires |identifier| == IDENTIFIER_SIZE
    ensures var file := identifier + Flatten(Encode(t));
      var node := Load(file, accepted);
      && (node.Some? <==> (identifier == accepted || identifier == [0, 0, 0, 0]) && (t.props != [] || t.kids != []))
      && (node.Some? ==> InFile(node.value, |file|) && Decoded(file, node.value) == t)
  {
    var c := Encode(t);
    var file := identifier + Flatten(c);
    EncodeLegal(t);
    assert file[..IDENTIFIER_SIZE] == identifier;
    assert file[IDENTIFIER_SIZE..] == Flatten(c) + MarksText([]);
    assert Derives(file[IDENTIFIER_SIZE..], c, []);
    if t.props != [] {
      assert |MarksText(c.props)| >= |c.props[0].Text()| >= 1;
    }
    if t.kids != [] {
      assert |KidsText(c.kids)| >= |Flatten(c.kids[0].node)| >= 1;
    }
    assert |file| > MINIMAL_SIZE <==> t.props != [] || t.kids != [];
    if |file| > MINIMAL_SIZE {
      DerivedDecodes(file, c, []);
    }
  }

  // ---------------------------------------------------------------- the tree under construction

  /** A `Node*` into the growing tree: which child of which node. */
  datatype Pointer = Top | Child(up: Pointer, index: nat)

  ghost predicate Reaches(root: Node, p: Pointer)
    decreases p, 0
  {
    p.Child? ==> Reaches(root, p.up) && p.index < |At(root, p.up).children|
  }

  function At(root: Node, p: Pointer): Node
    requires Reaches(root, p)
    decreases p, 1
  {
    if p.Top? then root else At(root, p.up).children[p.index]
  }

  /** The tree after the pointed-to node is overwritten in place. */
  function Put(root: Node, p: Pointer, n: Node): Node
    requires Reaches(root, p)
  {
    if p.Top? then n
    else
      var parent := At(root, p.up);
      Put(root, p.up, parent.(children := parent.children[p.index := n]))
  }

  /** q points strictly below p, that is, into storage that p's child vector owns. */
  predicate Under(q: Pointer, p: Pointer) {
    q.Child? && (q.up == p || Under(q.up, p))
  }

  ghost predicate NoneUnder(stack: seq<Pointer>, p: Pointer) {
    forall q <- stack :: !Under(q, p)
  }

  function Depth(p: Pointer): nat {
    if p.Top? then 0 else 1 + Depth(p.up)
  }

  lemma UnderIsDeeper(q: Pointer, p: Pointer)
    ensures Under(q, p) ==> Depth(q) > Depth(p)
  {
  }

  // The open frame f, whose START stands at `at`, as the loader stores it while it is innermost.
  function OpenNode(f: Cst, at: nat): Node {
    NodeOf(f, at).(propsEnd := if f.kids == [] then 0 else NodeOf(f, at).propsEnd)
  }

  // ... and once x is being built as its newest child.
  function Wrap(f: Cst, at: nat, x: Node): Node {
    NodeOf(f, at).(children := NodeOf(f, at).children + [x])
  }

  function Offset(below: seq<Cst>): nat {
    IDENTIFIER_SIZE + |FramesText(below)|
  }

  function Assemble(below: seq<Cst>, x: Node): Node {
    if below == [] then x
    else
      var m := |below| - 1;
      Assemble(below[..m], Wrap(below[m], Offset(below[..m]), x))
  }

  // The rightmost path: at every level the newest child.
  function Rightmost(below: seq<Cst>): Pointer {
    if below == [] then Top else Child(Rightmost(below[..|below| - 1]), |below[|below| - 1].kids|)
  }

  lemma {:induction false} KidsNodesLength(kids: seq<Kid>, at: nat)
    ensures |KidsNodes(kids, at)| == |kids|
  {
    if kids != [] {
      KidsNodesLength(kids[1..], at + |KidText(kids[0])|);
    }
  }

  lemma {:induction false} AtAssembled(below: seq<Cst>, x: Node)
    ensures Reaches(Assemble(below, x), Rightmost(below)) && At(Assemble(below, x), Rightmost(below)) == x
    ensures Depth(Rightmost(below)) == |below|
  {
    if below != [] {
      var m := |below| - 1;
      var at := Offset(below[..m]);
      AtAssembled(below[..m], Wrap(below[m], at, x));
      KidsNodesLength(below[m].kids, at + 2 + |MarksText(below[m].props)|);
    }
  }

  lemma {:induction false} PutAssembled(below: seq<Cst>, x: Node, y: Node)
    ensures Reaches(Assemble(below, x), Rightmost(below))
    ensures Put(Assemble(below, x), Rightmost(below), y) == Assemble(below, y)
  {
    AtAssembled(below, x);
    if below != [] {
      var m := |below| - 1;
      var at := Offset(below[..m]);
      var kids := NodeOf(below[m], at).children;
      KidsNodesLength(below[m].kids, at + 2 + |MarksText(below[m].props)|);
      assert |kids| == |below[m].kids|;
      hide NodeOf, Offset;
      AtAssembled(below[..m], Wrap(below[m], at, x));
      assert (kids + [x])[|kids| := y] == kids + [y];
      PutAssembled(below[..m], Wrap(below[m], at, x), Wrap(below[m], at, y));
    }
  }

  lemma KidsTextLength(a: seq<Kid>)
    ensures |KidsText(a)| == if a == [] then 0 else |KidText(a[0])| + |KidsText(a[1..])|
  {
    hide KidText;
  }

  lemma {:induction false} KidsNodesAppend(a: seq<Kid>, b: seq<Kid>, at: nat)
    ensures KidsNodes(a + b, at) == KidsNodes(a, at) + KidsNodes(b, at + |KidsText(a)|)
  {
    hide NodeOf, KidText, KidsText, KidsNodes;
    KidsTextLength(a);
    KidsNodesCons(a, at);
    if a == [] {
      assert a + b == b && [] + KidsNodes(b, at) == KidsNodes(b, at);
    } else {
      var next := at + |KidText(a[0])|;
      KidsNodesAppend(a[1..], b, next);
      assert (a + b)[1..] == a[1..] + b && (a + b)[0] == a[0];
      KidsNodesCons(a + b, at);
      Assoc([NodeOf(a[0].node, at)], KidsNodes(a[1..], next), KidsNodes(b, at + |KidsText(a)|));
    }
  }

  lemma KidsNodesCons(l: seq<Kid>, at: nat)
    ensures KidsNodes(l, at) == if l == [] then [] else [NodeOf(l[0].node, at)] + KidsNodes(l[1..], at + |KidText(l[0])|)
  {
    hide NodeOf, KidText;
  }

  lemma OneKidNode(k: Kid, at: nat)
    ensures KidsNodes([k], at) == [NodeOf(k.node, at)]
  {
    assert [k][1..] == [];
  }

  lemma MarkKeepsNode(f: Cst, m: Mark, at: nat)
    ensures OpenNode(AddMarkTo(f, m), at) == OpenNode(f, at)
  {
    if f.kids != [] {
      var last := f.kids[|f.kids| - 1];
      var before := f.kids[..|f.kids| - 1];
      var kidsAt := at + 2 + |MarksText(f.props)|;
      assert f.kids == before + [last];
      KidsNodesAppend(before, [last], kidsAt);
      KidsNodesAppend(before, [Kid(last.node, last.junk + [m])], kidsAt);
      OneKidNode(last, kidsAt + |KidsText(before)|);
      OneKidNode(Kid(last.node, last.junk + [m]), kidsAt + |KidsText(before)|);
      var g := AddMarkTo(f, m);
      assert g.props == f.props && g.kids == before + [Kid(last.node, last.junk + [m])];
      assert KidsNodes(g.kids, kidsAt) == KidsNodes(f.kids, kidsAt);
    } else {
      var g := AddMarkTo(f, m);
      assert g.kids == [] && NodeOf(g, at).children == [] == NodeOf(f, at).children;
    }
  }

  lemma CloseInto(g: Cst, f: Cst, at: nat)
    ensures Wrap(g, at, NodeOf(f, at + |OpenText(g)|)) == OpenNode(AddKid(g, f), at)
  {
    var kidsAt := at + 2 + |MarksText(g.props)|;
    KidsNodesAppend(g.kids, [Kid(f, [])], kidsAt);
    assert KidsNodes([Kid(f, [])], kidsAt + |KidsText(g.kids)|) == [NodeOf(f, kidsAt + |KidsText(g.kids)|)];
  }

  /** The tree and the pointer stack that belong to what has been read. */
  ghost predicate Stored(p: Progress, root: Node, stack: seq<Pointer>)
    requires Wf(p)
  {
    match p
    case Closed(c, _) => root == NodeOf(c, IDENTIFIER_SIZE) && stack == []
    case Open(frames) =>
      var top := |frames| - 1;
      && root == Assemble(frames[..top], OpenNode(frames[top], Offset(frames[..top])))
      && |stack| == |frames|
      && forall k :: 0 <= k < |frames| ==> stack[k] == Rightmost(frames[..k])
  }

  // The stack is the rightmost path, so nothing on it lies below the innermost open node.
  lemma StackIsPath(p: Progress, root: Node, stack: seq<Pointer>)
    requires Wf(p) && Stored(p, root, stack) && p.Open?
    ensures NoneUnder(stack, stack[|stack| - 1])
  {
    forall k | 0 <= k < |stack|
      ensures !Under(stack[k], stack[|stack| - 1])
    {
      AtAssembled(p.frames[..k], root);
      AtAssembled(p.frames[..|stack| - 1], root);
      UnderIsDeeper(stack[k], stack[|stack| - 1]);
    }
  }

  lemma StartStored(kind: byte)
    ensures Wf(Open([Cst(kind, [], [])])) && Text(Open([Cst(kind, [], [])])) == [START, kind]
    ensures Stored(Open([Cst(kind, [], [])]), Node(kind, IDENTIFIER_SIZE + 2, 0, []), [Top])
  {
    StartText(kind);
    assert [Cst(kind, [], [])][..0] == [];
    NewNode(kind, IDENTIFIER_SIZE);
  }

  lemma NewNode(kind: byte, at: nat)
    ensures OpenNode(Cst(kind, [], []), at) == Node(kind, at + 2, 0, [])
  {
    assert MarksText([]) == [];
    assert NodeOf(Cst(kind, [], []), at) == Node(kind, at + 2, at + 2, []);
  }

  lemma PushStored(frames: seq<Cst>, root: Node, stack: seq<Pointer>, kind: byte)
    requires Wf(Open(frames)) && Stored(Open(frames), root, stack)
    ensures Wf(Push(frames, kind))
    ensures var top := |frames| - 1; var below := frames[..top];
      var child := Node(kind, Offset(frames) + 2, 0, []);
      Stored(Push(frames, kind), Assemble(below, Wrap(frames[top], Offset(below), child)), stack + [Rightmost(frames)])
  {
    hide Text, Rightmost, NodeOf;
    PushText(frames, kind);
    var pushed := Push(frames, kind).frames;
    assert pushed[..|frames|] == frames;
    NewNode(kind, Offset(frames));
    hide OpenNode, Wrap, Wf;
    forall k | 0 <= k < |pushed|
      ensures (stack + [Rightmost(frames)])[k] == Rightmost(pushed[..k])
    {
      assert k < |frames| ==> pushed[..k] == frames[..k];
    }
  }

  lemma PopStored(frames: seq<Cst>, root: Node, stack: seq<Pointer>)
    requires Wf(Open(frames)) && Stored(Open(frames), root, stack)
    ensures Wf(Pop(frames))
    ensures var top := |frames| - 1; var below := frames[..top];
      Stored(Pop(frames), Assemble(below, NodeOf(frames[top], Offset(below))), stack[..top])
  {
    hide Assemble, Wrap, OpenNode, NodeOf, Text, Rightmost;
    PopText(frames);
    var top := |frames| - 1;
    if top > 0 {
      var lower := frames[..top - 1];
      assert frames[..top][..top - 1] == lower;
      PopTree(frames);
      var popped := Pop(frames).frames;
      hide Pop, Wf;
      assert popped[..top - 1] == lower;
      PathKept(frames, popped, stack);
    } else {
      AssembleNone(NodeOf(frames[0], Offset([])));
      assert frames[..0] == [];
    }
  }

  lemma AssembleNone(n: Node)
    ensures Assemble([], n) == n
  {
  }

  // The node that ends becomes the last child of the one below.
  lemma PopTree(frames: seq<Cst>)
    requires Wf(Open(frames)) && |frames| > 1
    ensures var top := |frames| - 1; var lower, below := frames[..top - 1], frames[..top];
      Assemble(below, NodeOf(frames[top], Offset(below))) == Assemble(lower, OpenNode(AddKid(frames[top - 1], frames[top]), Offset(lower)))
  {
    var top := |frames| - 1;
    var lower, below := frames[..top - 1], frames[..top];
    CloseInto(frames[top - 1], frames[top], Offset(lower));
    assert below[..top - 1] == lower && below == lower + [frames[top - 1]];
  }

  lemma PathKept(frames: seq<Cst>, popped: seq<Cst>, stack: seq<Pointer>)
    requires 0 < |popped| == |frames| - 1 == |stack| - 1 && popped[..|popped| - 1] == frames[..|popped| - 1]
    requires forall k :: 0 <= k < |frames| ==> stack[k] == Rightmost(frames[..k])
    ensures forall k :: 0 <= k < |popped| ==> stack[..|popped|][k] == Rightmost(popped[..k])
  {
    hide Rightmost;
    forall k | 0 <= k < |popped|
      ensures stack[..|popped|][k] == Rightmost(popped[..k])
    {
      assert popped[..k] == popped[..|popped| - 1][..k] == frames[..|popped| - 1][..k] == frames[..k];
    }
  }

  lemma MarkStored(p: Progress, root: Node, stack: seq<Pointer>, m: Mark)
    requires Wf(p) && Stored(p, root, stack) && m.Legal()
    ensures Wf(AddMark(p, m)) && Stored(AddMark(p, m), root, stack)
  {
    AddMarkText(p, m);
    if p.Open? {
      var top := |p.frames| - 1;
      var below := p.frames[..top];
      MarkKeepsNode(p.frames[top], m, Offset(below));
      var marked := AddMark(p, m).frames;
      forall k | 0 <= k < |marked|
        ensures stack[k] == Rightmost(marked[..k])
      {
        assert marked[..k] == p.frames[..k];
      }
      assert marked[..top] == below;
    }
  }

  /** The loop invariant of `parseTree` with the iterator at `it`. */
  ghost predicate Reading(file: seq<byte>, it: nat, p: Progress, root: Node, stack: seq<Pointer>) {
    && 6 <= it <= |file|
    && Wf(p) && Text(p) == file[IDENTIFIER_SIZE..it]
    && Stored(p, root, stack)
    && Run(p, file[it..]) == Run(Open([Cst(file[5], [], [])]), file[6..])
  }

  lemma StartReading(file: seq<byte>)
    requires |file| > MINIMAL_SIZE && file[IDENTIFIER_SIZE] == START
    ensures Reading(file, 6, Open([Cst(file[5], [], [])]), Node(file[5], 6, 0, []), [Top])
  {
    StartStored(file[5]);
    assert file[IDENTIFIER_SIZE..6] == [START, file[5]];
  }

  lemma EndReading(file: seq<byte>, p: Progress, root: Node, stack: seq<Pointer>)
    requires |file| > MINIMAL_SIZE && file[IDENTIFIER_SIZE] == START
    requires Reading(file, |file|, p, root, stack)
    ensures Parse(file) == if stack == [] then Some(root) else None
  {
    assert file[|file|..] == [];
  }

  // One turn of the loop that the recogniser takes too.
  lemma StepReading(file: seq<byte>, it: nat, p: Progress, root: Node, stack: seq<Pointer>, root': Node, stack': seq<Pointer>)
    requires Reading(file, it, p, root, stack) && it < |file|
    requires Step(p, file[it..]).Some?
    requires var (q, n) := Step(p, file[it..]).value; Wf(q) ==> Stored(q, root', stack')
    ensures var (q, n) := Step(p, file[it..]).value; Reading(file, it + n, q, root', stack')
  {
    hide Step, Text, Stored, Wf;
    StepText(p, file[it..]);
    var (q, n) := Step(p, file[it..]).value;
    assert file[it..][n..] == file[it + n..];
    assert file[it..][..n] == file[it..it + n];
    assert file[IDENTIFIER_SIZE..it] + file[it..it + n] == file[IDENTIFIER_SIZE..it + n];
  }

  // One turn of the loop that throws.
  lemma StuckReading(file: seq<byte>, it: nat, p: Progress, root: Node, stack: seq<Pointer>)
    requires |file| > MINIMAL_SIZE && file[IDENTIFIER_SIZE] == START
    requires Reading(file, it, p, root, stack) && it < |file|
    requires (stack == [] && (file[it] == START || file[it] == END)) || (it + 1 == |file| && (file[it] == START || file[it] == ESCAPE))
    ensures Parse(file).None?
  {
    assert Step(p, file[it..]).None?;
  }

  // The innermost open node, read through its pointer.
  lemma Innermost(p: Progress, root: Node, stack: seq<Pointer>)
    requires Wf(p) && Stored(p, root, stack) && stack != []
    ensures p.Open? && |stack| == |p.frames|
    ensures var top := |stack| - 1; var f, at := p.frames[top], Offset(p.frames[..top]);
      && stack[top] == Rightmost(p.frames[..top])
      && Reaches(root, stack[top]) && At(root, stack[top]) == OpenNode(f, at)
      && |OpenNode(f, at).children| == |f.kids|
  {
    var top := |stack| - 1;
    var f, at := p.frames[top], Offset(p.frames[..top]);
    AtAssembled(p.frames[..top], OpenNode(f, at));
    KidsNodesLength(f.kids, at + 2 + |MarksText(f.props)|);
  }

  /** The loader's node once its property extent is known to end at `it`. */
  function Ended(n: Node, it: nat): Node {
    if n.children == [] then n.(propsEnd := it) else n
  }

  function PropsEnded(root: Node, p: Pointer, it: nat): Node
    requires Reaches(root, p)
  {
    Put(root, p, Ended(At(root, p), it))
  }

  function Emplaced(root: Node, p: Pointer, kind: byte, propsBegin: nat): (Node, Pointer)
    requires Reaches(root, p)
  {
    var n := At(root, p);
    (Put(root, p, n.(children := n.children + [Node(kind, propsBegin, 0, [])])), Child(p, |n.children|))
  }

  lemma {:induction false} AtPut(root: Node, p: Pointer, n: Node)
    requires Reaches(root, p)
    ensures Reaches(Put(root, p, n), p) && At(Put(root, p, n), p) == n
    ensures forall m :: Put(Put(root, p, n), p, m) == Put(root, p, m)
  {
    if p.Child? {
      var parent := At(root, p.up);
      AtPut(root, p.up, parent.(children := parent.children[p.index := n]));
      forall m
        ensures Put(Put(root, p, n), p, m) == Put(root, p, m)
      {
        assert parent.children[p.index := n][p.index := m] == parent.children[p.index := m];
      }
    }
  }

  lemma EndedNode(f: Cst, at: nat)
    ensures Ended(OpenNode(f, at), at + |OpenText(f)|) == NodeOf(f, at)
  {
    KidsNodesLength(f.kids, at + 2 + |MarksText(f.props)|);
    if f.kids == [] {
      assert KidsText(f.kids) == [];
    }
  }

  lemma OffsetIsIterator(file: seq<byte>, it: nat, p: Progress)
    requires p.Open? && p.frames != [] && 6 <= it <= |file| && Text(p) == file[IDENTIFIER_SIZE..it]
    ensures var top := |p.frames| - 1;
      Offset(p.frames) == it == Offset(p.frames[..top]) + |OpenText(p.frames[top])|
  {
  }

  // A child opened by the source's in-place edits is the child opened on values.
  lemma GrowStored(p: Progress, root: Node, stack: seq<Pointer>, it: nat, kind: byte)
    requires Wf(p) && Stored(p, root, stack) && stack != [] && p.Open? && Offset(p.frames) == it
    requires var top := |p.frames| - 1; it == Offset(p.frames[..top]) + |OpenText(p.frames[top])|
    ensures Reaches(root, stack[|stack| - 1]) && Wf(Push(p.frames, kind))
    ensures var top := stack[|stack| - 1];
      var current := Ended(At(root, top), it);
      var child := Node(kind, it + 2, 0, []);
      Stored(Push(p.frames, kind), Put(root, top, current.(children := current.children + [child])),
        stack + [Child(top, |current.children|)])
  {
    hide Assemble, Put, Push, NodeOf, OpenNode, Offset, OpenText, Text, Stored, Wf, Rightmost, Wrap, Ended;
    Innermost(p, root, stack);
    var m := |stack| - 1;
    var f, below := p.frames[m], p.frames[..m];
    var child := Node(kind, it + 2, 0, []);
    GrowInnermost(f, Offset(below), it, child);
    InnermostIs(p, root, stack);
    PutAssembled(below, OpenNode(f, Offset(below)), Wrap(f, Offset(below), child));
    PushStored(p.frames, root, stack, kind);
    NextRightmost(p.frames, stack[m]);
  }

  // The innermost open node, ended where its first child begins, with the child.
  lemma GrowInnermost(f: Cst, at: nat, it: nat, child: Node)
    requires it == at + |OpenText(f)|
    ensures var current := Ended(OpenNode(f, at), it);
      |current.children| == |OpenNode(f, at).children| && current.(children := current.children + [child]) == Wrap(f, at, child)
  {
    hide OpenText;
    EndedNode(f, at);
  }

  lemma InnermostIs(p: Progress, root: Node, stack: seq<Pointer>)
    requires Wf(p) && Stored(p, root, stack) && p.Open? && p.frames != []
    ensures var m := |p.frames| - 1; root == Assemble(p.frames[..m], OpenNode(p.frames[m], Offset(p.frames[..m])))
  {
    hide Assemble, OpenNode, Offset, Text, Rightmost;
  }

  lemma NextRightmost(frames: seq<Cst>, top: Pointer)
    requires frames != [] && top == Rightmost(frames[..|frames| - 1])
    ensures Rightmost(frames) == Child(top, |frames[|frames| - 1].kids|)
  {
  }

  lemma CloseStored(p: Progress, root: Node, stack: seq<Pointer>, it: nat)
    requires Wf(p) && Stored(p, root, stack) && stack != [] && p.Open?
    requires var top := |p.frames| - 1; it == Offset(p.frames[..top]) + |OpenText(p.frames[top])|
    ensures Reaches(root, stack[|stack| - 1]) && Wf(Pop(p.frames))
    ensures var top := stack[|stack| - 1];
      Stored(Pop(p.frames), Put(root, top, Ended(At(root, top), it)), stack[..|stack| - 1])
  {
    hide Assemble, Put, Pop, NodeOf, OpenNode, Offset, OpenText;
    Innermost(p, root, stack);
    var m := |stack| - 1;
    var f, below := p.frames[m], p.frames[..m];
    EndedNode(f, Offset(below));
    PutAssembled(below, OpenNode(f, Offset(below)), NodeOf(f, Offset(below)));
    PopStored(p.frames, root, stack);
    hide Stored;
  }

  lemma GrowReading(file: seq<byte>, it: nat, p: Progress, root: Node, stack: seq<Pointer>)
    requires Reading(file, it, p, root, stack) && it + 1 < |file| && file[it] == START && stack != []
    ensures p.Open? && p.frames != [] && Reaches(root, stack[|stack| - 1])
    ensures NoneUnder(stack, stack[|stack| - 1])
    ensures var top := stack[|stack| - 1];
      && Reaches(PropsEnded(root, top, it), top)
      && var (grown, child) := Emplaced(PropsEnded(root, top, it), top, file[it + 1], it + 2);
      Reading(file, it + 2, Push(p.frames, file[it + 1]), grown, stack + [child])
  {
    hide Text, Put, Push, Pop, AddMark, Offset, OpenText;
    Innermost(p, root, stack);
    StackIsPath(p, root, stack);
    hide Stored;
    OffsetIsIterator(file, it, p);
    GrowStored(p, root, stack, it, file[it + 1]);
    var top := stack[|stack| - 1];
    var current := Ended(At(root, top), it);
    var child := Node(file[it + 1], it + 2, 0, []);
    AtPut(root, top, current);
    StepReading(file, it, p, root, stack,
      Put(root, top, current.(children := current.children + [child])), stack + [Child(top, |current.children|)]);
  }

  lemma CloseReading(file: seq<byte>, it: nat, p: Progress, root: Node, stack: seq<Pointer>)
    requires Reading(file, it, p, root, stack) && it < |file| && file[it] == END && stack != []
    ensures p.Open? && p.frames != [] && Reaches(root, stack[|stack| - 1])
    ensures var top := stack[|stack| - 1];
      Reading(file, it + 1, Pop(p.frames), PropsEnded(root, top, it), stack[..|stack| - 1])
  {
    hide Text, Put, Push, Pop, AddMark, Offset, OpenText;
    Innermost(p, root, stack);
    hide Stored;
    OffsetIsIterator(file, it, p);
    CloseStored(p, root, stack, it);
    var top := stack[|stack| - 1];
    StepReading(file, it, p, root, stack, Put(root, top, Ended(At(root, top), it)), stack[..|stack| - 1]);
  }

  lemma MarkReading(file: seq<byte>, it: nat, p: Progress, root: Node, stack: seq<Pointer>)
    requires Reading(file, it, p, root, stack) && it < |file| && file[it] != START && file[it] != END
    requires file[it] == ESCAPE ==> it + 1 < |file|
    ensures Live(p)
    ensures var m := if file[it] == ESCAPE then Escaped(file[it + 1]) else Plain(file[it]);
      Reading(file, it + (if file[it] == ESCAPE then 2 else 1), AddMark(p, m), root, stack)
  {
    hide Text, Push, Pop, AddMark, Stored;
    MarkStored(p, root, stack, if file[it] == ESCAPE then Escaped(file[it + 1]) else Plain(file[it]));
    StepReading(file, it, p, root, stack, root, stack);
  }

  lemma {:induction false} PutSame(root: Node, p: Pointer)
    requires Reaches(root, p)
    ensures Put(root, p, At(root, p)) == root
  {
    if p.Child? {
      var parent := At(root, p.up);
      assert parent.children[p.index := At(root, p)] == parent.children;
      PutSame(root, p.up);
    }
  }

  class Loader {
    const file: seq<byte>
    const accepted: seq<byte>
    var root: Node
    var propBuffer: seq<byte>

    constructor (file: seq<byte>, accepted: seq<byte>)
      requires Admits(file, accepted)
      ensures this.file == file && this.accepted == accepted
    {
      this.file, this.accepted := file, accepted;
      root := Node(0, 0, 0, []);
      propBuffer := [];
    }

    /** The source's constructor, with null where it throws. */
    static method Make(file: seq<byte>, accepted: seq<byte>) returns (loader: Loader?)
      ensures loader != null <==> Admits(file, accepted)
      ensures loader != null ==> fresh(loader) && loader.file == file && loader.accepted == accepted
    {
      loader := null;
      if |file| <= MINIMAL_SIZE {
        return;
      }
      var fileIdentifier := file[..IDENTIFIER_SIZE];
      if fileIdentifier != accepted && fileIdentifier != [0, 0, 0, 0] {
        return;
      }
      loader := new Loader(file, accepted);
    }

    /** The properties of a node end where its first child starts or where it ends itself. */
    method EndProps(node: Pointer, it: nat)
      requires Reaches(root, node)
      modifies this`root
      ensures root == PropsEnded(old(root), node, it)
    {
      PutSame(root, node);
      var current := At(root, node);
      if current.children == [] {
        root := Put(root, node, current.(propsEnd := it));
      }
    }

    method EmplaceChild(node: Pointer, kind: byte, propsBegin: nat) returns (child: Pointer)
      requires Reaches(root, node)
      modifies this`root
      ensures (root, child) == Emplaced(old(root), node, kind, propsBegin)
    {
      var current := At(root, node);
      root := Put(root, node, current.(children := current.children + [Node(kind, propsBegin, 0, [])]));
      child := Child(node, |current.children|);
    }

    /** The switch inside the source's loop; not ok where it throws. */
    method ParseChar(at: nat, parseStack: seq<Pointer>, ghost p: Progress)
      returns (ok: bool, it: nat, stack: seq<Pointer>, ghost q: Progress)
      requires at < |file| && |file| > MINIMAL_SIZE && file[IDENTIFIER_SIZE] == START
      requires Reading(file, at, p, root, parseStack)
      modifies this`root
      ensures ok ==> it <= |file| && at < it && Reading(file, it, q, root, stack)
      ensures !ok ==> Parse(file).None?
    {
      hide Reading, Parse, Push, Pop, AddMark, Put, At, Stored, Wf, Text, Step, Run, Ended, PropsEnded, Emplaced, NoneUnder, Reaches, Under, Live;
      ok, it, stack, q := false, at, parseStack, p;
      var b := file[at];
      if (parseStack == [] && (b == START || b == END)) || (at + 1 == |file| && (b == START || b == ESCAPE)) {
        StuckReading(file, at, p, root, parseStack);
        return;
      }
      if b == START {
        GrowReading(file, at, p, root, parseStack);
        var top := parseStack[|parseStack| - 1];
        EndProps(top, at);
        // growing a child vector moves that vector's nodes: no pointer on the stack is into it
        assert NoneUnder(parseStack, top);
        var child := EmplaceChild(top, file[at + 1], at + 2);
        q := Push(p.frames, file[at + 1]);
        return true, at + 2, parseStack + [child], q;
      } else if b == END {
        CloseReading(file, at, p, root, parseStack);
        EndProps(parseStack[|parseStack| - 1], at);
        q := Pop(p.frames);
        return true, at + 1, parseStack[..|parseStack| - 1], q;
      } else if b == ESCAPE {
        MarkReading(file, at, p, root, parseStack);
        q := AddMark(p, Escaped(file[at + 1]));
        return true, at + 2, parseStack, q;
      } else {
        MarkReading(file, at, p, root, parseStack);
        q := AddMark(p, Plain(b));
        return true, at + 1, parseStack, q;
      }
    }

    method ParseTree() returns (ok: bool)
      requires Admits(file, accepted)
      modifies this`root
      ensures ok == Load(file, accepted).Some?
      ensures ok ==> root == Load(file, accepted).value
    {
      var it := IDENTIFIER_SIZE;
      if file[it] != START {
        return false;
      }
      it := it + 1;
      root := Node(file[it], it + 1, 0, []);
      it := it + 1;
      var parseStack := [Top];
      ghost var p := Open([Cst(file[5], [], [])]);
      StartReading(file);
      while it < |file|
        invariant it <= |file|
        invariant Reading(file, it, p, root, parseStack)
        decreases |file| - it
      {
        ok, it, parseStack, p := ParseChar(it, parseStack, p);
        if !ok {
          return;
        }
      }
      EndReading(file, p, root, parseStack);
      ok := parseStack == [];
    }

    /** False on an empty extent; otherwise the unescaped bytes end up in the buffer. */
    method GetProps(n: Node) returns (ok: bool)
      requires n.propsBegin <= n.propsEnd <= |file|
      modifies this`propBuffer
      ensures ok == (n.propsBegin < n.propsEnd)
      ensures propBuffer == if ok then Unescape(file[n.propsBegin..n.propsEnd], false) else old(propBuffer)
    {
      if n.propsBegin == n.propsEnd {
        return false;
      }
      hide Unescape;
      var raw := file[n.propsBegin..n.propsEnd];
      var out: seq<byte> := [];
      var lastEscaped := false;
      for i := 0 to |raw|
        invariant out + Unescape(raw[i..], lastEscaped) == Unescape(raw, false)
      {
        ghost var was := out;
        UnescapeAt(raw, i, lastEscaped);
        lastEscaped := raw[i] == ESCAPE && !lastEscaped;
        if !lastEscaped {
          out := out + [raw[i]];
        }
        Assoc(was, if lastEscaped then [] else [raw[i]], Unescape(raw[i + 1..], lastEscaped));
      }
      UnescapeEnd(raw, lastEscaped);
      propBuffer := out;
      ok := true;
    }
  }
}
