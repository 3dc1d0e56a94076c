/** `procesar_plano`: the points the analyser reads off one drawing. The
    contour detector and the OCR engine are outside the model: their outputs
    (one record per contour, the recognised text) are the inputs here, and
    Python's `float()` is the abstract partial function `parse`. */
module Plan {
  import opened Wrappers
  import opened Text
  import opened Filtering

  /** The `tipo` of a detected point. */
  datatype Kind = ElementoArquitectonico | CoordenadaTexto

  /** One entry of `resultados`. */
  datatype Point = Point(x: real, y: real, tipo: Kind, descripcion: string)

  /** What the analyser reads off one contour: `cv2.contourArea` and the
      `cv2.boundingRect` corner and size. */
  datatype Contour = Contour(area: real, x: int, y: int, w: nat, h: nat)

  /** Contours of this area or less are discarded. */
  const MinArea: real := 100.0

  const LabelPrefix: string := "Elemento de "
  const LabelSuffix: string := "px"

  /** `f"Elemento de {w}x{h}px"`. */
  function ElementLabel(w: nat, h: nat): string {
    LabelPrefix + NatToString(w) + "x" + NatToString(h) + LabelSuffix
  }

  /** Reads the width and height back out of an element label. */
  function ParseLabel(s: string): Option<(nat, nat)> {
    var p := |LabelPrefix|;
    var q := |LabelSuffix|;
    if |s| < p + q || s[..p] != LabelPrefix || s[|s| - q..] != LabelSuffix then None
    else
      var dims := Split(s[p..|s| - q], 'x');
      if |dims| == 2 && IsDecimal(dims[0]) && IsDecimal(dims[1])
      then Some((DecimalValue(dims[0]), DecimalValue(dims[1])))
      else None
  }

  /** An element label carries the exact width and height of its box. */
  lemma LabelRoundTrip(w: nat, h: nat)
    ensures ParseLabel(ElementLabel(w, h)) == Some((w, h))
  {
    var a, b := NatToString(w), NatToString(h);
    var s := ElementLabel(w, h);
    var p, q := |LabelPrefix|, |LabelSuffix|;
    assert s[..p] == LabelPrefix;
    assert s[|s| - q..] == LabelSuffix;
    assert s[p..|s| - q] == a + "x" + b;
    assert 'x' !in a && 'x' !in b by {
      assert forall k :: 0 <= k < |a| ==> IsDigit(a[k]);
      assert forall k :: 0 <= k < |b| ==> IsDigit(b[k]);
    }
    SplitUnique(a + "x" + b, 'x', [a, b]);
  }

  /** Two boxes get the same label only if they have the same size. */
  lemma ElementLabelInjective(w1: nat, h1: nat, w2: nat, h2: nat)
    requires ElementLabel(w1, h1) == ElementLabel(w2, h2)
    ensures w1 == w2 && h1 == h2
  {
    LabelRoundTrip(w1, h1);
    LabelRoundTrip(w2, h2);
  }

  /** What one contour contributes (app.py, the body of the contour loop). */
  function ContourPoint(c: Contour): Option<Point> {
    if c.area > MinArea then
      Some(Point(c.x as real + c.w as real / 2.0, c.y as real + c.h as real / 2.0,
                 ElementoArquitectonico, ElementLabel(c.w, c.h)))
    else None
  }

  /** The contour-derived part of `resultados`. */
  function ElementPoints(cs: seq<Contour>): seq<Point> {
    FilterMap(cs, ContourPoint)
  }

  /** A contour yields a point exactly when its area exceeds 100; that point
      is the centre of its bounding box, labelled with the box's size, and the
      points keep the order of their contours. */
  lemma ElementPointsSpec(cs: seq<Contour>) returns (idx: seq<nat>)
    ensures |idx| == |ElementPoints(cs)|
    ensures forall k, l :: 0 <= k < l < |idx| ==> idx[k] < idx[l]
    ensures forall i :: 0 <= i < |cs| ==> (cs[i].area > MinArea <==> i in idx)
    ensures forall k :: 0 <= k < |idx| ==>
      && idx[k] < |cs|
      && ElementPoints(cs)[k] == Point(cs[idx[k]].x as real + cs[idx[k]].w as real / 2.0,
                                       cs[idx[k]].y as real + cs[idx[k]].h as real / 2.0,
                                       ElementoArquitectonico, ElementLabel(cs[idx[k]].w, cs[idx[k]].h))
  {
    idx := FilterMapOrigins(cs, ContourPoint);
  }

  /** `[linea for linea in ... if linea.strip()]`, one element at a time. */
  function KeepNonBlank(linea: string): Option<string> {
    if Strip(linea) != [] then Some(linea) else None
  }

  /** `lineas_texto`: the non-blank lines of the recognised text. */
  function NonBlankLines(texto: string): seq<string> {
    FilterMap(Split(texto, '\n'), KeepNonBlank)
  }

  /** `linea.strip()` is truthy: the line holds a non-whitespace character. */
  predicate HasText(linea: string) {
    exists c :: 0 <= c < |linea| && !IsSpace(linea[c])
  }

  lemma KeepNonBlankSpec(linea: string)
    ensures KeepNonBlank(linea).Some? <==> HasText(linea)
  {
  }

  /** The lines examined are exactly the pieces of `texto.split('\n')` that
      hold a non-whitespace character, in their original order. */
  lemma NonBlankLinesSpec(texto: string) returns (idx: seq<nat>)
    ensures var pieces := Split(texto, '\n');
      && |idx| == |NonBlankLines(texto)|
      && (forall k, l :: 0 <= k < l < |idx| ==> idx[k] < idx[l])
      && (forall i :: 0 <= i < |pieces| ==>
            (HasText(pieces[i]) <==> i in idx))
      && (forall k :: 0 <= k < |idx| ==> idx[k] < |pieces| && NonBlankLines(texto)[k] == pieces[idx[k]])
  {
    var pieces := Split(texto, '\n');
    idx := FilterMapOrigins(pieces, KeepNonBlank);
    forall i | 0 <= i < |pieces| ensures HasText(pieces[i]) <==> KeepNonBlank(pieces[i]).Some? {
      KeepNonBlankSpec(pieces[i]);
    }
  }

  /** The `try` block for one line: the text between the first `(` and the
      first `)` must split on `,` into exactly two numbers. Every failure,
      `ValueError` from `index`, from `float` or from the unpacking, yields
      `None`. */
  function CoordinatePoint(linea: string, parse: string -> Option<real>): (r: Option<Point>)
    ensures r.Some? ==> r.value.tipo == CoordenadaTexto && r.value.descripcion == linea
  {
    match (Find(linea, '('), Find(linea, ')'))
    case (Some(open), Some(close)) =>
      var parts := Split(Slice(linea, open + 1, close), ',');
      if |parts| != 2 then None
      else
        (match (parse(parts[0]), parse(parts[1]))
         case (Some(x), Some(y)) => Some(Point(x, y, CoordenadaTexto, linea))
         case _ => None)
    case _ => None
  }

  /** What one non-blank line contributes (app.py, the body of the text loop). */
  function LinePoint(linea: string, parse: string -> Option<real>): (r: Option<Point>)
    ensures r.Some? ==> r.value.tipo == CoordenadaTexto && r.value.descripcion == linea
  {
    if '(' in linea && ')' in linea then CoordinatePoint(linea, parse) else None
  }

  function LineReader(parse: string -> Option<real>): string -> Option<Point> {
    linea => LinePoint(linea, parse)
  }

  /** The text-derived part of `resultados`. */
  function TextPoints(texto: string, parse: string -> Option<real>): seq<Point> {
    FilterMap(NonBlankLines(texto), LineReader(parse))
  }

  /** `c` first occurs in `s` at position `i`. */
  predicate FirstAt(s: string, c: char, i: int) {
    0 <= i < |s| && s[i] == c && c !in s[..i]
  }

  /** A line whose first `(` comes before its first `)`, with two numbers
      separated by the only comma between them, yields the point made of those
      numbers, described by the whole line. */
  lemma LinePointYields(linea: string, parse: string -> Option<real>, i: nat, j: nat, a: string, b: string)
    requires FirstAt(linea, '(', i) && FirstAt(linea, ')', j) && i < j
    requires linea[i + 1..j] == a + "," + b && ',' !in a && ',' !in b
    requires parse(a).Some? && parse(b).Some?
    ensures LinePoint(linea, parse) == Some(Point(parse(a).value, parse(b).value, CoordenadaTexto, linea))
  {
    assert Find(linea, '(') == Some(i);
    assert Find(linea, ')') == Some(j);
    SplitUnique(a + "," + b, ',', [a, b]);
  }

  /** Conversely, a line yields a point only in that situation. */
  lemma LinePointWitness(linea: string, parse: string -> Option<real>) returns (i: nat, j: nat, a: string, b: string)
    requires LinePoint(linea, parse).Some?
    ensures FirstAt(linea, '(', i) && FirstAt(linea, ')', j) && i < j
    ensures linea[i + 1..j] == a + "," + b && ',' !in a && ',' !in b
    ensures parse(a).Some? && parse(b).Some?
    ensures LinePoint(linea, parse) == Some(Point(parse(a).value, parse(b).value, CoordenadaTexto, linea))
  {
    i := Find(linea, '(').value;
    j := Find(linea, ')').value;
    var parts := Split(Slice(linea, i + 1, j), ',');
    a, b := parts[0], parts[1];
    assert Join(parts, ',') == a + "," + b;
  }

  /** A line whose first `)` does not come after the character following its
      first `(` gives an empty coordinate text, which does not split into two
      parts: the line is dropped. */
  lemma EmptyCoordinatesDropped(linea: string, parse: string -> Option<real>, i: nat, j: nat)
    requires FirstAt(linea, '(', i) && FirstAt(linea, ')', j) && j <= i + 1
    ensures LinePoint(linea, parse) == None
  {
    assert Find(linea, '(') == Some(i);
    assert Find(linea, ')') == Some(j);
    assert Slice(linea, i + 1, j) == [];
    assert Split([], ',') == [[]];
  }

  /** A text line yields a point exactly when `LinePoint` accepts it; the
      verdict on one line does not depend on any other line, and the points
      keep the order of their lines. */
  lemma TextPointsSpec(texto: string, parse: string -> Option<real>) returns (idx: seq<nat>)
    ensures var lines := NonBlankLines(texto);
      && |idx| == |TextPoints(texto, parse)|
      && (forall k, l :: 0 <= k < l < |idx| ==> idx[k] < idx[l])
      && (forall i :: 0 <= i < |lines| ==> (LinePoint(lines[i], parse).Some? <==> i in idx))
      && (forall k :: 0 <= k < |idx| ==>
            && idx[k] < |lines|
            && LinePoint(lines[idx[k]], parse) == Some(TextPoints(texto, parse)[k]))
  {
    idx := FilterMapOrigins(NonBlankLines(texto), LineReader(parse));
  }

  /** In the combined result every contour point comes before every text
      point. */
  lemma ElementsBeforeText(cs: seq<Contour>, texto: string, parse: string -> Option<real>)
    ensures var r := ElementPoints(cs) + TextPoints(texto, parse);
      && (forall k :: 0 <= k < |ElementPoints(cs)| ==> r[k].tipo == ElementoArquitectonico)
      && (forall k :: |ElementPoints(cs)| <= k < |r| ==> r[k].tipo == CoordenadaTexto)
  {
    var e, t := ElementPoints(cs), TextPoints(texto, parse);
    var ei := ElementPointsSpec(cs);
    var ti := TextPointsSpec(texto, parse);
    assert forall k :: 0 <= k < |t| ==> t[k].tipo == CoordenadaTexto;
  }

  /** An element label is a single line. */
  lemma ElementLabelSingleLine(w: nat, h: nat)
    ensures '\n' !in ElementLabel(w, h)
  {
    var a, b := NatToString(w), NatToString(h);
    assert forall k :: 0 <= k < |a| ==> IsDigit(a[k]);
    assert forall k :: 0 <= k < |b| ==> IsDigit(b[k]);
    assert ElementLabel(w, h) == LabelPrefix + a + "x" + b + LabelSuffix;
  }

  lemma ElementDescriptionsSingleLine(cs: seq<Contour>)
    ensures forall k :: 0 <= k < |ElementPoints(cs)| ==> '\n' !in ElementPoints(cs)[k].descripcion
  {
    var e := ElementPoints(cs);
    var ei := ElementPointsSpec(cs);
    forall k | 0 <= k < |e| ensures '\n' !in e[k].descripcion {
      ElementLabelSingleLine(cs[ei[k]].w, cs[ei[k]].h);
    }
  }

  lemma TextDescriptionsSingleLine(texto: string, parse: string -> Option<real>)
    ensures forall k :: 0 <= k < |TextPoints(texto, parse)| ==> '\n' !in TextPoints(texto, parse)[k].descripcion
  {
    var t := TextPoints(texto, parse);
    var pieces := Split(texto, '\n');
    var lines := NonBlankLines(texto);
    var li := NonBlankLinesSpec(texto);
    var ti := TextPointsSpec(texto, parse);
    forall k | 0 <= k < |t| ensures '\n' !in t[k].descripcion {
      assert t[k].descripcion == lines[ti[k]];
      assert lines[ti[k]] == pieces[li[ti[k]]];
    }
  }

  /** No description of a detected point holds a line break: element labels
      are single lines and text points are described by a line of the text. */
  lemma DescriptionsAreSingleLines(cs: seq<Contour>, texto: string, parse: string -> Option<real>)
    ensures var r := ElementPoints(cs) + TextPoints(texto, parse);
      forall k :: 0 <= k < |r| ==> '\n' !in r[k].descripcion
  {
    ElementDescriptionsSingleLine(cs);
    TextDescriptionsSingleLine(texto, parse);
  }

  /** A text made of one non-blank line yields at most that line's point. */
  lemma OneLineText(linea: string, parse: string -> Option<real>)
    requires '\n' !in linea && HasText(linea)
    ensures TextPoints(linea, parse) == Emit(LinePoint(linea, parse))
  {
    SplitUnique(linea, '\n', [linea]);
    KeepNonBlankSpec(linea);
    assert NonBlankLines(linea) == [linea];
    assert [linea][..0] == [];
  }

  /** A text made of one non-blank line holding a coordinate pair yields
      exactly that point. */
  lemma OneLineYields(linea: string, parse: string -> Option<real>, i: nat, j: nat, a: string, b: string)
    requires '\n' !in linea && HasText(linea)
    requires FirstAt(linea, '(', i) && FirstAt(linea, ')', j) && i < j
    requires linea[i + 1..j] == a + "," + b && ',' !in a && ',' !in b
    requires parse(a).Some? && parse(b).Some?
    ensures TextPoints(linea, parse) == [Point(parse(a).value, parse(b).value, CoordenadaTexto, linea)]
  {
    OneLineText(linea, parse);
    LinePointYields(linea, parse, i, j, a, b);
  }

  lemma PuntoLine(linea: string)
    requires linea == "Punto (12.5, 7)"
    ensures '\n' !in linea && HasText(linea)
    ensures FirstAt(linea, '(', 6) && FirstAt(linea, ')', 14)
    ensures linea[7..14] == "12.5" + "," + " 7"
  {
    assert !IsSpace(linea[0]);
  }

  /** The line `Punto (12.5, 7)` yields the point (12.5, 7) described by the
      whole line, whenever `float` reads its two halves as those numbers. */
  lemma PuntoExample(linea: string, parse: string -> Option<real>)
    requires linea == "Punto (12.5, 7)"
    requires parse("12.5") == Some(12.5) && parse(" 7") == Some(7.0)
    ensures TextPoints(linea, parse) == [Point(12.5, 7.0, CoordenadaTexto, linea)]
  {
    PuntoLine(linea);
    OneLineYields(linea, parse, 6, 14, "12.5", " 7");
  }

  lemma PlainLine(linea: string)
    requires linea == "sin coordenadas aqui"
    ensures '\n' !in linea && HasText(linea) && '(' !in linea
  {
    assert !IsSpace(linea[0]);
  }

  /** A line without parentheses yields nothing, and nothing fails. */
  lemma NoCoordinatesExample(linea: string, parse: string -> Option<real>)
    requires linea == "sin coordenadas aqui"
    ensures TextPoints(linea, parse) == []
  {
    PlainLine(linea);
    OneLineText(linea, parse);
  }

  /** The contour loop of `procesar_plano`: every contour of area over 100
      appends the centre of its bounding box, in contour order. */
  method DetectElements(contours: seq<Contour>) returns (resultados: seq<Point>)
    ensures resultados == ElementPoints(contours)
  {
    resultados := [];
    for i := 0 to |contours|
      invariant resultados == FilterMap(contours[..i], ContourPoint)
    {
      var cnt := contours[i];
      FilterMapSnoc(contours, i, ContourPoint);
      if cnt.area > MinArea {
        var centroX := cnt.x as real + cnt.w as real / 2.0;
        var centroY := cnt.y as real + cnt.h as real / 2.0;
        assert Emit(ContourPoint(cnt)) == [Point(centroX, centroY, ElementoArquitectonico, ElementLabel(cnt.w, cnt.h))];
        resultados := resultados + [Point(centroX, centroY, ElementoArquitectonico, ElementLabel(cnt.w, cnt.h))];
      } else {
        assert Emit(ContourPoint(cnt)) == [];
        assert resultados + [] == resultados;
      }
    }
    assert contours[..|contours|] == contours;
  }

  /** The text loop of `procesar_plano`: every non-blank line that holds a
      coordinate pair appends one point to what `resultados` already holds. */
  method AppendTextPoints(resultados0: seq<Point>, texto: string, parse: string -> Option<real>)
    returns (resultados: seq<Point>)
    ensures resultados == resultados0 + TextPoints(texto, parse)
  {
    resultados := resultados0;
    var lineasTexto := NonBlankLines(texto);
    for j := 0 to |lineasTexto|
      invariant resultados == resultados0 + FilterMap(lineasTexto[..j], LineReader(parse))
    {
      var linea := lineasTexto[j];
      FilterMapStep(resultados0, lineasTexto, j, LineReader(parse));
      assert LineReader(parse)(linea) == LinePoint(linea, parse);
      if '(' in linea && ')' in linea {
        var punto := CoordinatePoint(linea, parse);
        if punto.Some? {
          resultados := resultados + [punto.value];
        }
      }
    }
    assert lineasTexto[..|lineasTexto|] == lineasTexto;
  }

  /** `procesar_plano` from the contour records and the recognised text on:
      the contour points, then the text points. */
  method ProcessPlan(contours: seq<Contour>, texto: string, parse: string -> Option<real>)
    returns (resultados: seq<Point>)
    ensures resultados == ElementPoints(contours) + TextPoints(texto, parse)
  {
    resultados := DetectElements(contours);
    resultados := AppendTextPoints(resultados, texto, parse);
  }
}
