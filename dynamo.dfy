/** `generar_codigo_dynamo`: the Python script for Dynamo that rebuilds the
    detected points. Python's rendering of a float inside an f-string is the
    abstract `fmt`. */
module Dynamo {
  import opened Wrappers
  import opened Text
  import opened Plan

  /** The lines of the fixed start of every script, up to `puntos = [`. */
  const PreambleLines: seq<string> := [
    "# Python script for Dynamo",
    "import clr",
    "clr.AddReference('ProtoGeometry')",
    "from Autodesk.DesignScript.Geometry import *",
    "",
    "# Puntos detectados en el plano",
    "puntos = ["
  ]

  /** The lines of the fixed end of every script, closing the list and
      binding `OUT`. */
  const EpilogueLines: seq<string> := ["]", "", "# Output para Dynamo", "OUT = puntos"]

  /** The two triple-quoted literals of the template, each line of them ended
      by a line break. */
  const Preamble: string := Terminated(PreambleLines, '\n')
  const Epilogue: string := Terminated(EpilogueLines, '\n')

  /** The statement that builds one point, commented with its description. */
  function PointText(p: Point, fmt: real -> string): string {
    "    Point.ByCoordinates(" + fmt(p.x) + ", " + fmt(p.y) + ", 0),  # " + p.descripcion
  }

  /** The point statements, one per point, in order. */
  function PointTexts(pts: seq<Point>, fmt: real -> string): (r: seq<string>)
    ensures |r| == |pts|
  {
    if pts == [] then [] else PointTexts(pts[..|pts| - 1], fmt) + [PointText(pts[|pts| - 1], fmt)]
  }

  /** The whole script for `pts`. */
  function Script(pts: seq<Point>, fmt: real -> string): string {
    Preamble + Terminated(PointTexts(pts, fmt), '\n') + Epilogue
  }

  /** The loop of `generar_codigo_dynamo`: one `+=` of a point statement and
      its line break per point, in order. */
  method AppendPointStatements(codigo0: string, puntos: seq<Point>, fmt: real -> string)
    returns (codigo: string)
    ensures codigo == codigo0 + Terminated(PointTexts(puntos, fmt), '\n')
  {
    codigo := codigo0;
    assert puntos[..0] == [];
    assert codigo == codigo0 + [];
    for i := 0 to |puntos|
      invariant codigo == codigo0 + Terminated(PointTexts(puntos[..i], fmt), '\n')
    {
      var punto := puntos[i];
      assert puntos[..i + 1][..i] == puntos[..i];
      TerminatedSnoc(PointTexts(puntos[..i], fmt), PointText(punto, fmt), '\n');
      AppendLine(codigo0, Terminated(PointTexts(puntos[..i], fmt), '\n'), PointText(punto, fmt), '\n');
      codigo := codigo + PointText(punto, fmt) + "\n";
    }
    assert puntos[..|puntos|] == puntos;
  }

  /** `generar_codigo_dynamo`: the preamble, the point statements, the
      epilogue. */
  method GenerateScript(puntos: seq<Point>, fmt: real -> string) returns (codigo: string)
    ensures codigo == Script(puntos, fmt)
  {
    codigo := Preamble;
    codigo := AppendPointStatements(codigo, puntos, fmt);
    codigo := codigo + Epilogue;
  }

  /** `s` holds no line break; the per-character form is the cheap one to
      check on a literal. */
  predicate NoBreak(s: string) {
    forall i :: 0 <= i < |s| ==> s[i] != '\n'
  }

  // The lemmas below take each literal as a parameter (`requires s == "..."`)
  // rather than naming the constant: stated that way the verifier checks the
  // characters of one short literal instead of unfolding the whole template.
  lemma BreakFreeLine0(s: string)
    requires s == "# Python script for Dynamo"
    ensures NoBreak(s)
  {}

  lemma BreakFreeLine1(s: string)
    requires s == "import clr"
    ensures NoBreak(s)
  {}

  lemma BreakFreeLine2(s: string)
    requires s == "clr.AddReference('ProtoGeometry')"
    ensures NoBreak(s)
  {}

  lemma BreakFreeLine3(s: string)
    requires s == "from Autodesk.DesignScript.Geometry import *"
    ensures NoBreak(s)
  {}

  lemma BreakFreeLine5(s: string)
    requires s == "# Puntos detectados en el plano"
    ensures NoBreak(s)
  {}

  lemma BreakFreeLine6(s: string)
    requires s == "puntos = ["
    ensures NoBreak(s)
  {}

  lemma BreakFreeStatement(s: string)
    requires s == "    Point.ByCoordinates("
    ensures NoBreak(s)
  {}

  lemma BreakFreeComment(s: string)
    requires s == ", 0),  # "
    ensures NoBreak(s)
  {}

  /** No line of the fixed preamble holds a line break. */
  lemma PreambleLinesSingle()
    ensures forall k :: 0 <= k < |PreambleLines| ==> '\n' !in PreambleLines[k]
  {
    BreakFreeLine0(PreambleLines[0]);
    BreakFreeLine1(PreambleLines[1]);
    BreakFreeLine2(PreambleLines[2]);
    BreakFreeLine3(PreambleLines[3]);
    BreakFreeLine5(PreambleLines[5]);
    BreakFreeLine6(PreambleLines[6]);
  }

  /** No line of the fixed epilogue holds a line break. */
  lemma EpilogueLinesSingle()
    ensures forall k :: 0 <= k < |EpilogueLines| ==> '\n' !in EpilogueLines[k]
  {
  }

  /** A point statement is one line when its coordinates and its description
      are. */
  lemma PointTextSingle(p: Point, fmt: real -> string)
    requires '\n' !in fmt(p.x) && '\n' !in fmt(p.y) && '\n' !in p.descripcion
    ensures '\n' !in PointText(p, fmt)
  {
    BreakFreeStatement("    Point.ByCoordinates(");
    BreakFreeComment(", 0),  # ");
  }

  /** The `k`-th point statement is the statement of the `k`-th point. */
  lemma {:induction false} PointTextsSpec(pts: seq<Point>, fmt: real -> string)
    ensures forall k :: 0 <= k < |pts| ==> PointTexts(pts, fmt)[k] == PointText(pts[k], fmt)
  {
    if pts != [] {
      var init := pts[..|pts| - 1];
      PointTextsSpec(init, fmt);
      assert forall k :: 0 <= k < |init| ==> pts[k] == init[k];
    }
  }

  /** Neither the rendered coordinates nor the description of any point
      holds a line break. */
  predicate OneLinePoints(pts: seq<Point>, fmt: real -> string) {
    forall k :: 0 <= k < |pts| ==>
      '\n' !in fmt(pts[k].x) && '\n' !in fmt(pts[k].y) && '\n' !in pts[k].descripcion
  }

  /** Every point statement is one line when the descriptions and the
      rendered numbers are. */
  lemma PointTextsSingle(pts: seq<Point>, fmt: real -> string)
    requires OneLinePoints(pts, fmt)
    ensures forall k :: 0 <= k < |pts| ==> '\n' !in PointTexts(pts, fmt)[k]
  {
    PointTextsSpec(pts, fmt);
    forall k | 0 <= k < |pts|
      ensures '\n' !in PointTexts(pts, fmt)[k]
    {
      PointTextSingle(pts[k], fmt);
    }
  }

  /** Read line by line, a script is the preamble, one statement per point in
      order, the epilogue, and the empty remainder after the last line break. */
  lemma ScriptLines(pts: seq<Point>, fmt: real -> string)
    requires OneLinePoints(pts, fmt)
    ensures Split(Script(pts, fmt), '\n') == PreambleLines + PointTexts(pts, fmt) + EpilogueLines + [""]
  {
    PreambleLinesSingle();
    EpilogueLinesSingle();
    PointTextsSingle(pts, fmt);
    SplitThreeRuns(PreambleLines, PointTexts(pts, fmt), EpilogueLines, '\n');
  }

  /** Without points the preamble is directly followed by the epilogue. */
  lemma EmptyScript(fmt: real -> string)
    ensures Script([], fmt) == Preamble + Epilogue
    ensures Split(Script([], fmt), '\n') == PreambleLines + EpilogueLines + [""]
  {
    ScriptLines([], fmt);
    assert PointTexts([], fmt) == [];
    EmptyMiddle(Preamble, Epilogue);
    EmptyMiddle(PreambleLines, EpilogueLines);
  }

  /** The script of an analysed plan lists exactly its points, contour points
      first, one statement line each. */
  lemma PlanScriptLines(cs: seq<Contour>, texto: string, parse: string -> Option<real>, fmt: real -> string)
    requires forall v :: '\n' !in fmt(v)
    ensures var pts := ElementPoints(cs) + TextPoints(texto, parse);
      Split(Script(pts, fmt), '\n') == PreambleLines + PointTexts(pts, fmt) + EpilogueLines + [""]
  {
    DescriptionsAreSingleLines(cs, texto, parse);
    assert OneLinePoints(ElementPoints(cs) + TextPoints(texto, parse), fmt);
    ScriptLines(ElementPoints(cs) + TextPoints(texto, parse), fmt);
  }
}
