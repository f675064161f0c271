/**
 * The response renderer: the fixed HTTP/HTML template of
 * button_web_server.c:62-85 with its three substitutions, formatted by
 * `snprintf` (ISO C11 section 7.21.6.5) into the 1024-byte `html` buffer.
 * Buffers hold C chars (bytes): the UTF-8 encodings of 'ã' (C3 A3) and
 * 'õ' (C3 B5) are written as their two bytes, so a string's length is its
 * size in bytes.
 */
module Render {
  import opened CString

  /** sizeof(html) */
  const HtmlSize: nat := 1024

  const StatusLine := "HTTP/1.1 200 OK\r\n"
  const ContentType := "Content-Type: text/html\r\n"
  /** Status line, the one header and the blank line that ends them. */
  const Header := StatusLine + ContentType + "\r\n"
  const DocOpen := "<!DOCTYPE html>\n" + "<html lang='pt-br'>\n" + "<head>\n"
  /** Client-side refresh: the page reloads itself after 1000 ms. */
  const Reload := "<script> setTimeout(() => " + "location.reload(), 1000); " + "</script>\n"
  const Charset := "<meta charset='UTF-8'>\n"
  const Viewport := "<meta name='viewport' " + "content='width=device-width, " + "initial-scale=1.0'>\n"
  const Title := "<title> Atividade 1 </title>\n" + "</head>\n"
  const HeadRest := Charset + Viewport + Title
  const BodyStyle := "<body style='text-align: " + "center'>\n"
  const Heading := "<h1> Leitura dos status dos " + "bot\U{C3}\U{B5}es da placa " + "Bitdoglab </h1>\n"
  const BodyOpen := BodyStyle + Heading
  const LabelA := "Estado bot\U{C3}\U{A3}o A: "
  const LabelB := "Estado bot\U{C3}\U{A3}o B: "
  const ClassA := "<p class=\"estado_botao_a\"> "
  const ClassB := "<p class=\"estado_botao_b\"> "
  const FieldA := ClassA + LabelA
  const FieldB := ClassB + LabelB
  const FieldEnd := " </p>\n"
  const TempHeading := "<h1> Leitura da temperatura " + "da placa Bitdoglab </h1>\n"
  const TempLabel := "<p class=\"temperature\">" + "Temperatura interna: "
  const TempOpen := TempHeading + TempLabel
  const TempEnd := " &deg;C</p>\n"
  const DocClose := "</body>\n" + "</html>\n"

  const Pressed := "Pressionado"
  const Released := "Solto"

  /** Bytes of the template outside its three conversions. */
  const FixedLength: nat := 600

  /** The text printed for a button (button_web_server.c:82-83). */
  function ButtonText(pressed: bool): (s: string)
    ensures s == Pressed <==> pressed
    ensures s == Released <==> !pressed
  {
    if pressed then Pressed else Released
  }

  /** One button paragraph: `field`, the button's text, the closing tag. */
  function ButtonLine(field: string, pressed: bool): string
  {
    field + ButtonText(pressed) + FieldEnd
  }

  /** The temperature paragraph around the `%.2f` text. */
  function TemperatureLine(temperature: string): string
  {
    TempOpen + temperature + TempEnd
  }

  /** Everything the template prints before the first button paragraph. */
  function Preamble(): string
  {
    Header + DocOpen + Reload + HeadRest + BodyOpen
  }

  /** A parsed `printf` format string: literal text, and `%s`-style conversions that each consume one argument. */
  datatype Directive = Text(text: string) | Conversion

  /**
   * The output of a format with its arguments, before it is cut to the buffer.
   * A conversion without an argument left prints nothing (for C that is
   * undefined behaviour, which the template never reaches).
   */
  function Expand(format: seq<Directive>, args: seq<string>): string
    decreases |format|
  {
    if format == [] then []
    else match format[0]
      case Text(t) => t + Expand(format[1..], args)
      case Conversion =>
        if args == [] then Expand(format[1..], args)
        else args[0] + Expand(format[1..], args[1..])
  }

  /**
   * The format string of button_web_server.c:62-80 as its four literal runs
   * around the two `%s` for the buttons and the `%.2f` for the temperature,
   * whose text is given ready-made.
   */
  const HtmlFormat: seq<Directive> := [
    Text(Preamble() + FieldA), Conversion,
    Text(FieldEnd + FieldB), Conversion,
    Text(FieldEnd + TempOpen), Conversion,
    Text(TempEnd + DocClose)]

  /** The untruncated output of the `snprintf` call: the template with its three substitutions. */
  function Format(pressedA: bool, pressedB: bool, temperature: string): string
  {
    Expand(HtmlFormat, [ButtonText(pressedA), ButtonText(pressedB), temperature])
  }

  /** Expanding three conversions between four texts places each argument between its two texts. */
  lemma ExpandShape(p: string, q: string, r: string, s: string, x: string, y: string, z: string)
    ensures Expand([Text(p), Conversion, Text(q), Conversion, Text(r), Conversion, Text(s)], [x, y, z])
         == p + x + q + y + r + z + s
  {
    var f := [Text(p), Conversion, Text(q), Conversion, Text(r), Conversion, Text(s)];
    assert [z][1..] == [] && [y, z][1..] == [z] && [x, y, z][1..] == [y, z];
    assert Expand(f[7..], []) == [];
    assert Expand(f[6..], []) == s;
    assert Expand(f[5..], [z]) == z + s;
    assert Expand(f[4..], [z]) == r + (z + s);
    assert Expand(f[3..], [y, z]) == y + (r + (z + s));
    assert Expand(f[2..], [y, z]) == q + (y + (r + (z + s)));
    assert Expand(f[1..], [x, y, z]) == x + (q + (y + (r + (z + s))));
    assert Expand(f, [x, y, z]) == p + (x + (q + (y + (r + (z + s)))));
  }

  /** Regrouping the expansion into the template's paragraphs. */
  lemma Regroup(pre: string, fa: string, fe: string, fb: string, to: string, te: string, dc: string,
                x: string, y: string, z: string)
    ensures (pre + fa) + x + (fe + fb) + y + (fe + to) + z + (te + dc)
         == pre + (fa + x + fe) + (fb + y + fe) + (to + z + te) + dc
  {
  }

  /** The rendering spelled out: preamble, the two button paragraphs, the temperature paragraph, the closing tags. */
  lemma FormatSpelledOut(pressedA: bool, pressedB: bool, temperature: string)
    ensures Format(pressedA, pressedB, temperature)
         == Preamble() + ButtonLine(FieldA, pressedA) + ButtonLine(FieldB, pressedB)
            + TemperatureLine(temperature) + DocClose
  {
    var x, y := ButtonText(pressedA), ButtonText(pressedB);
    ExpandShape(Preamble() + FieldA, FieldEnd + FieldB, FieldEnd + TempOpen, TempEnd + DocClose, x, y, temperature);
    Regroup(Preamble(), FieldA, FieldEnd, FieldB, TempOpen, TempEnd, DocClose, x, y, temperature);
  }

  /** What `snprintf` keeps of `s` in a buffer of `size` bytes: at most size - 1 characters, the rest is cut. */
  function Bounded(s: string, size: nat): (r: string)
    requires size > 0
    ensures |r| < size && |r| <= |s| && r == s[..|r|]
    ensures |s| < size ==> r == s
    ensures |s| >= size ==> |r| == size - 1
  {
    if |s| < size then s else s[..size - 1]
  }

  /** The bytes handed to `tcp_write`: `strlen(html)` bytes of the buffer `snprintf` filled. */
  function Response(pressedA: bool, pressedB: bool, temperature: string): string
  {
    CView(Bounded(Format(pressedA, pressedB, temperature), HtmlSize))
  }

  /**
   * `snprintf(buf, buf.Length, "%s", s)`: stores the bounded prefix of `s` and
   * a NUL, and returns the length the full output would have had.
   */
  method SnPrintf(buf: array<char>, s: string) returns (full: nat)
    requires buf.Length > 0
    modifies buf
    ensures full == |s|
    ensures buf[..|Bounded(s, buf.Length)|] == Bounded(s, buf.Length)
    ensures buf[|Bounded(s, buf.Length)|] == NUL
  {
    var n := if |s| < buf.Length then |s| else buf.Length - 1;
    var i := 0;
    while i < n
      invariant 0 <= i <= n
      invariant buf[..i] == s[..i]
    {
      buf[i] := s[i];
      assert buf[..i + 1] == buf[..i] + [s[i]];
      i := i + 1;
    }
    buf[n] := NUL;
    full := |s|;
  }

  /** The exact size of a rendering: the fixed template plus the three substituted texts. */
  lemma FormatLength(pressedA: bool, pressedB: bool, temperature: string)
    ensures |Format(pressedA, pressedB, temperature)|
         == FixedLength + |ButtonText(pressedA)| + |ButtonText(pressedB)| + |temperature|
  {
    FormatSpelledOut(pressedA, pressedB, temperature);
  }

  // NUL-freeness of the template, one short piece at a time.

  lemma StatusHasNoNul()
    ensures NUL !in StatusLine && NUL !in ContentType
  {
  }

  lemma DocOpenHasNoNul()
    ensures NUL !in DocOpen
  {
  }

  lemma ReloadHasNoNul()
    ensures NUL !in Reload
  {
  }

  lemma CharsetHasNoNul()
    ensures NUL !in Charset
  {
  }

  lemma ViewportHasNoNul()
    ensures NUL !in Viewport
  {
  }

  lemma TitleHasNoNul()
    ensures NUL !in Title
  {
  }

  lemma BodyStyleHasNoNul()
    ensures NUL !in BodyStyle
  {
  }

  lemma HeadingHasNoNul()
    ensures NUL !in Heading
  {
  }

  lemma LabelsHaveNoNul()
    ensures NUL !in LabelA && NUL !in LabelB
  {
  }

  lemma ClassesHaveNoNul()
    ensures NUL !in ClassA && NUL !in ClassB
  {
  }

  lemma TempHeadingHasNoNul()
    ensures NUL !in TempHeading
  {
  }

  lemma TempLabelHasNoNul()
    ensures NUL !in TempLabel
  {
  }

  lemma TailHasNoNul()
    ensures NUL !in FieldEnd && NUL !in TempEnd && NUL !in DocClose
  {
  }

  lemma ButtonTextsHaveNoNul()
    ensures NUL !in Pressed && NUL !in Released
  {
  }

  /** Every literal run of the template is free of NUL. */
  lemma TemplateHasNoNul()
    ensures NUL !in Header && NUL !in Preamble()
    ensures NUL !in FieldA && NUL !in FieldB && NUL !in FieldEnd
    ensures NUL !in TempOpen && NUL !in TempEnd && NUL !in DocClose
    ensures NUL !in Pressed && NUL !in Released
  {
    StatusHasNoNul();
    DocOpenHasNoNul();
    ReloadHasNoNul();
    CharsetHasNoNul();
    ViewportHasNoNul();
    TitleHasNoNul();
    BodyStyleHasNoNul();
    HeadingHasNoNul();
    LabelsHaveNoNul();
    ClassesHaveNoNul();
    TempHeadingHasNoNul();
    TempLabelHasNoNul();
    TailHasNoNul();
    ButtonTextsHaveNoNul();
  }

  /** The template never contains NUL, so `strlen` sees the whole formatted text unless the temperature does. */
  lemma FormatHasNoNul(pressedA: bool, pressedB: bool, temperature: string)
    requires NUL !in temperature
    ensures NUL !in Format(pressedA, pressedB, temperature)
  {
    FormatSpelledOut(pressedA, pressedB, temperature);
    TemplateHasNoNul();
  }

  /** A NUL-free prefix survives the view intact. */
  lemma {:induction false} CViewPrefixFree(a: seq<char>, b: seq<char>)
    requires NUL !in a
    ensures a <= CView(a + b)
  {
    if a != [] {
      assert (a + b)[1..] == a[1..] + b;
      CViewPrefixFree(a[1..], b);
    }
  }

  /** Every response starts with the status line and the text/html header, and fits the buffer. */
  lemma ResponseShape(pressedA: bool, pressedB: bool, temperature: string)
    ensures |Response(pressedA, pressedB, temperature)| <= HtmlSize - 1
    ensures Header <= Response(pressedA, pressedB, temperature)
  {
    var f := Format(pressedA, pressedB, temperature);
    var b := Bounded(f, HtmlSize);
    FormatLength(pressedA, pressedB, temperature);
    FormatSpelledOut(pressedA, pressedB, temperature);
    StatusHasNoNul();
    assert f == Header + f[|Header|..];
    assert b == Header + b[|Header|..] by { assert b[..|Header|] == f[..|Header|]; }
    CViewPrefixFree(Header, b[|Header|..]);
  }

  /**
   * The page is truncated exactly when the formatted text reaches the buffer
   * size; in particular a temperature text of at most 401 bytes never is.
   */
  lemma NoTruncation(pressedA: bool, pressedB: bool, temperature: string)
    requires NUL !in temperature
    ensures Response(pressedA, pressedB, temperature) == Format(pressedA, pressedB, temperature)
        <==> |Format(pressedA, pressedB, temperature)| < HtmlSize
    ensures |temperature| <= HtmlSize - 1 - FixedLength - 2 * |Pressed| ==>
        Response(pressedA, pressedB, temperature) == Format(pressedA, pressedB, temperature)
  {
    var f := Format(pressedA, pressedB, temperature);
    FormatLength(pressedA, pressedB, temperature);
    FormatHasNoNul(pressedA, pressedB, temperature);
    var b := Bounded(f, HtmlSize);
    assert NUL !in b;
    CViewOfPlain(b);
  }

  /**
   * An untruncated page carries the reload script, each button's paragraph and
   * the temperature paragraph.
   */
  lemma FieldsReported(pressedA: bool, pressedB: bool, temperature: string)
    requires NUL !in temperature && |temperature| <= HtmlSize - 1 - FixedLength - 2 * |Pressed|
    ensures Occurs(Response(pressedA, pressedB, temperature), Reload)
    ensures Occurs(Response(pressedA, pressedB, temperature), ButtonLine(FieldA, pressedA))
    ensures Occurs(Response(pressedA, pressedB, temperature), ButtonLine(FieldB, pressedB))
    ensures Occurs(Response(pressedA, pressedB, temperature), TemperatureLine(temperature))
  {
    NoTruncation(pressedA, pressedB, temperature);
    FormatSpelledOut(pressedA, pressedB, temperature);
    var la, lb, lt := ButtonLine(FieldA, pressedA), ButtonLine(FieldB, pressedB), TemperatureLine(temperature);
    var p := Preamble();
    // the reload script, inside the preamble
    OccursSelf(Reload);
    OccursAfter(Header + DocOpen, Reload, Reload);
    OccursBefore(Header + DocOpen + Reload, HeadRest, Reload);
    OccursBefore(Header + DocOpen + Reload + HeadRest, BodyOpen, Reload);
    OccursBefore(p, la, Reload);
    OccursBefore(p + la, lb, Reload);
    OccursBefore(p + la + lb, lt, Reload);
    OccursBefore(p + la + lb + lt, DocClose, Reload);
    // button A
    OccursSelf(la);
    OccursAfter(p, la, la);
    OccursBefore(p + la, lb, la);
    OccursBefore(p + la + lb, lt, la);
    OccursBefore(p + la + lb + lt, DocClose, la);
    // button B
    OccursSelf(lb);
    OccursAfter(p + la, lb, lb);
    OccursBefore(p + la + lb, lt, lb);
    OccursBefore(p + la + lb + lt, DocClose, lb);
    // temperature
    OccursSelf(lt);
    OccursAfter(p + la + lb, lt, lt);
    OccursBefore(p + la + lb + lt, DocClose, lt);
  }

  /** Button A pressed, button B released, 36.55 degrees: the page says so. */
  lemma ExamplePage()
    ensures Occurs(Response(true, false, "36.55"), LabelA + Pressed)
    ensures Occurs(Response(true, false, "36.55"), LabelB + Released)
    ensures Occurs(Response(true, false, "36.55"), "36.55")
  {
    FieldsReported(true, false, "36.55");
    var r := Response(true, false, "36.55");
    OccursParts(r, ClassA, LabelA, Pressed, FieldEnd);
    OccursParts(r, ClassB, LabelB, Released, FieldEnd);
    OccursPart(r, TempOpen, "36.55", TempEnd);
  }
}
