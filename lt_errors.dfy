/**
  `LogicTreeError`: the error raised when a logic-tree file holds a value
  that cannot be read, and how it renders as text.
*/
module LtErrors {
  import opened Wrappers
  import opened Text

  /** What the error is built from: a plain line number, or an XML node,
      which may or may not know the line it came from. */
  datatype NodeRef = LineNumber(n: int) | XmlNode(lineno: Option<int>)

  /** The line shown in the message: a number, or `'?'`. */
  datatype LineNo = Line(n: int) | UnknownLine

  datatype LogicTreeError = LogicTreeError(filename: string, lineno: LineNo, message: string)

  /** The constructor: a node that is an `int` is the line itself, otherwise
      the node's `lineno` attribute, otherwise `'?'`. */
  function NewError(node: NodeRef, filename: string, message: string): (e: LogicTreeError)
    ensures e.filename == filename && e.message == message
    ensures e.lineno.UnknownLine? <==> node == XmlNode(None)
    ensures node.LineNumber? ==> e.lineno == Line(node.n)
    ensures node.XmlNode? && node.lineno.Some? ==> e.lineno == Line(node.lineno.value)
  {
    var lineno := match node
      case LineNumber(n) => Line(n)
      case XmlNode(Some(n)) => Line(n)
      case XmlNode(None) => UnknownLine;
    LogicTreeError(filename, lineno, message)
  }

  /** `%s` of the line: the decimal number, or `?` when it is unknown. */
  function LineText(l: LineNo): (t: string)
    ensures t == "?" <==> l.UnknownLine?
    ensures l.Line? ==> ParseFloat(t) == Some(l.n as real)
    ensures forall i :: 0 <= i < |t| ==> t[i] != ':'
  {
    match l
    case Line(n) =>
      ParseFloatIntToString(n);
      var t := IntToString(n);
      assert t[0] != '?';
      t
    case UnknownLine => "?"
  }

  /** `str(error)`: `filename '<f>', line <n>: <message>`. */
  function Render(e: LogicTreeError): string {
    "filename '" + (e.filename + ("', line " + (LineText(e.lineno) + (": " + e.message))))
  }

  /** Two texts cut at the first occurrence of `x` agree on both sides of it. */
  lemma CutAtFirst(a: string, b: string, c: string, d: string, x: char)
    requires a + ([x] + b) == c + ([x] + d)
    requires x !in a && x !in c
    ensures a == c && b == d
  {
    var s := a + ([x] + b);
    assert s[|a|] == x && s[|c|] == x;
    assert |a| == |c|;
    assert a == s[..|a|] == c;
    assert b == s[|a| + 1..] == d;
  }

  lemma DropPrefix(p: string, a: string, b: string)
    requires p + a == p + b
    ensures a == b
  {
    assert a == (p + a)[|p|..];
  }

  lemma SplitHead(lit: string, rest: string)
    requires lit != []
    ensures lit + rest == [lit[0]] + (lit[1..] + rest)
  {
    assert lit == [lit[0]] + lit[1..];
  }

  lemma LineTextInjective(l1: LineNo, l2: LineNo)
    requires LineText(l1) == LineText(l2)
    ensures l1 == l2
  {
    if l1.Line? && l2.Line? {
      IntToStringInjective(l1.n, l2.n);
    }
  }

  /** The rendering loses nothing: as long as the file names hold no quote,
      the file name, the line and the message can all be read back. */
  lemma RenderInjective(e1: LogicTreeError, e2: LogicTreeError)
    requires '\'' !in e1.filename && '\'' !in e2.filename
    requires Render(e1) == Render(e2)
    ensures e1 == e2
  {
    var l1, l2 := LineText(e1.lineno), LineText(e2.lineno);
    var z1 := l1 + (": " + e1.message);
    var z2 := l2 + (": " + e2.message);
    DropPrefix("filename '", e1.filename + ("', line " + z1), e2.filename + ("', line " + z2));
    SplitHead("', line ", z1);
    SplitHead("', line ", z2);
    CutAtFirst(e1.filename, ", line " + z1, e2.filename, ", line " + z2, '\'');
    DropPrefix(", line ", z1, z2);
    SplitHead(": ", e1.message);
    SplitHead(": ", e2.message);
    CutAtFirst(l1, " " + e1.message, l2, " " + e2.message, ':');
    DropPrefix(" ", e1.message, e2.message);
    LineTextInjective(e1.lineno, e2.lineno);
  }
}
