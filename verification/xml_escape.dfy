/** The `escapeXml` helper of `generateRSSXML` in src/handlers/lambda.ts.

    Escaping the five characters of section 4.6 of XML 1.0 is the writer's only correctness
    mechanism: it makes every inserted text legal character data in the sense of
    section 2.4 of XML 1.0. */
module XmlEscape {
  import opened Strings

  /** `s.replace(/c/g, rep)` for a one-character pattern. */
  function ReplaceAll(s: string, c: char, rep: string): (r: string)
    ensures c !in rep ==> c !in r
    decreases |s|
  {
    if |s| == 0 then ""
    else (if s[0] == c then rep else [s[0]]) + ReplaceAll(s[1..], c, rep)
  }

  /** `escapeXml` as the source writes it: five chained replacements, `&` first. */
  function EscapeXmlChained(s: string): string {
    ReplaceAll(ReplaceAll(ReplaceAll(ReplaceAll(ReplaceAll(s, '&', "&amp;"), '<', "&lt;"), '>', "&gt;"),
                          '"', "&quot;"), '\'', "&apos;")
  }

  /** The replacement of one character. */
  function EscapeChar(c: char): string {
    match c
    case '&' => "&amp;"
    case '<' => "&lt;"
    case '>' => "&gt;"
    case '"' => "&quot;"
    case '\'' => "&apos;"
    case _ => [c]
  }

  /** Text starts with one of the five predefined entity references. */
  predicate StartsWithEntity(s: string) {
    StartsWith(s, "&amp;") || StartsWith(s, "&lt;") || StartsWith(s, "&gt;") ||
    StartsWith(s, "&quot;") || StartsWith(s, "&apos;")
  }

  /** Character data with references (sections 2.4 and 4.6 of XML 1.0): no `<`, no `]]>`, and
      every `&` opens a predefined entity reference. */
  predicate IsEscapedText(s: string) {
    && '<' !in s
    && !Contains(s, "]]>")
    && forall i | 0 <= i < |s| && s[i] == '&' :: StartsWithEntity(s[i..])
  }

  lemma EntityPrefixExtends(a: string, b: string, i: nat)
    requires i < |a| && StartsWithEntity(a[i..])
    ensures StartsWithEntity((a + b)[i..])
  {
    assert (a + b)[i..] == a[i..] + b;
  }

  /** Prefixing escaped text with one escaped character keeps it escaped. */
  lemma EscapeCons(c: char, rest: string)
    requires '<' !in rest && '>' !in rest && '"' !in rest && '\'' !in rest
    requires forall i | 0 <= i < |rest| && rest[i] == '&' :: StartsWithEntity(rest[i..])
    ensures var r := EscapeChar(c) + rest;
      && '<' !in r && '>' !in r && '"' !in r && '\'' !in r
      && (forall i | 0 <= i < |r| && r[i] == '&' :: StartsWithEntity(r[i..]))
      && !Contains(r, "]]>")
  {
    var head := EscapeChar(c);
    assert forall i | 0 <= i < |head| && head[i] == '&' :: i == 0 && StartsWithEntity(head);
    forall i | 0 <= i < |head + rest| && (head + rest)[i] == '&'
      ensures StartsWithEntity((head + rest)[i..])
    {
      if i < |head| {
        EntityPrefixExtends(head, rest, i);
      } else {
        assert (head + rest)[i..] == rest[i - |head|..];
      }
    }
    AbsentCharBlocksContains(head + rest, "]]>", 2);
  }

  /** `escapeXml` as one pass that replaces each character independently. */
  function EscapeXml(s: string): (r: string)
    ensures '<' !in r && '>' !in r && '"' !in r && '\'' !in r
    ensures forall i | 0 <= i < |r| && r[i] == '&' :: StartsWithEntity(r[i..])
    ensures IsEscapedText(r)
    ensures |r| >= |s|
    decreases |s|
  {
    if |s| == 0 then ""
    else
      EscapeCons(s[0], EscapeXml(s[1..]));
      EscapeChar(s[0]) + EscapeXml(s[1..])
  }

  lemma ReplaceAllConcat(a: string, b: string, c: char, rep: string)
    ensures ReplaceAll(a + b, c, rep) == ReplaceAll(a, c, rep) + ReplaceAll(b, c, rep)
    decreases |a|
  {
    if |a| > 0 {
      assert (a + b)[0] == a[0];
      assert (a + b)[1..] == a[1..] + b;
      ReplaceAllConcat(a[1..], b, c, rep);
    } else {
      assert a + b == b;
    }
  }

  lemma ReplaceAllAbsent(s: string, c: char, rep: string)
    requires c !in s
    ensures ReplaceAll(s, c, rep) == s
    decreases |s|
  {
    if |s| > 0 {
      ReplaceAllAbsent(s[1..], c, rep);
    }
  }

  lemma ReplaceAllOne(c: char, d: char, rep: string)
    ensures ReplaceAll([c], d, rep) == if c == d then rep else [c]
  {
    assert [c][1..] == [];
  }

  /** The last replacements of the chain leave a text without the characters they replace alone. */
  lemma ChainTail(t: string, from: nat)
    requires from <= 4
    requires from <= 1 ==> '<' !in t
    requires from <= 2 ==> '>' !in t
    requires from <= 3 ==> '"' !in t
    requires '\'' !in t
    ensures from == 1 ==> ReplaceAll(ReplaceAll(ReplaceAll(ReplaceAll(t, '<', "&lt;"), '>', "&gt;"),
                                                '"', "&quot;"), '\'', "&apos;") == t
    ensures from == 2 ==> ReplaceAll(ReplaceAll(ReplaceAll(t, '>', "&gt;"), '"', "&quot;"), '\'', "&apos;") == t
    ensures from == 3 ==> ReplaceAll(ReplaceAll(t, '"', "&quot;"), '\'', "&apos;") == t
    ensures from == 4 ==> ReplaceAll(t, '\'', "&apos;") == t
  {
    if from <= 1 { ReplaceAllAbsent(t, '<', "&lt;"); }
    if from <= 2 { ReplaceAllAbsent(t, '>', "&gt;"); }
    if from <= 3 { ReplaceAllAbsent(t, '"', "&quot;"); }
    ReplaceAllAbsent(t, '\'', "&apos;");
  }

  /** The chained replacements on a single character give that character's escape. */
  lemma ChainedOnChar(c: char)
    ensures EscapeXmlChained([c]) == EscapeChar(c)
  {
    ReplaceAllOne(c, '&', "&amp;");
    if c == '&' {
      ChainTail("&amp;", 1);
    } else {
      ReplaceAllOne(c, '<', "&lt;");
      if c == '<' {
        ChainTail("&lt;", 2);
      } else {
        ReplaceAllOne(c, '>', "&gt;");
        if c == '>' {
          ChainTail("&gt;", 3);
        } else {
          ReplaceAllOne(c, '"', "&quot;");
          if c == '"' {
            ChainTail("&quot;", 4);
          } else {
            ReplaceAllOne(c, '\'', "&apos;");
          }
        }
      }
    }
  }

  /** Replacing `&` first makes the five chained replacements equal to one per-character pass. */
  lemma {:induction false} ChainedEscapeIsPerChar(s: string)
    ensures EscapeXmlChained(s) == EscapeXml(s)
    decreases |s|
  {
    if |s| > 0 {
      var a, b := [s[0]], s[1..];
      assert s == a + b;
      var x1, y1 := ReplaceAll(a, '&', "&amp;"), ReplaceAll(b, '&', "&amp;");
      ReplaceAllConcat(a, b, '&', "&amp;");
      var x2, y2 := ReplaceAll(x1, '<', "&lt;"), ReplaceAll(y1, '<', "&lt;");
      ReplaceAllConcat(x1, y1, '<', "&lt;");
      var x3, y3 := ReplaceAll(x2, '>', "&gt;"), ReplaceAll(y2, '>', "&gt;");
      ReplaceAllConcat(x2, y2, '>', "&gt;");
      var x4, y4 := ReplaceAll(x3, '"', "&quot;"), ReplaceAll(y3, '"', "&quot;");
      ReplaceAllConcat(x3, y3, '"', "&quot;");
      ReplaceAllConcat(x4, y4, '\'', "&apos;");
      ChainedOnChar(s[0]);
      ChainedEscapeIsPerChar(b);
    }
  }

  /** Undoes the five predefined entity references, left to right. */
  function UnescapeXml(s: string): string
    decreases |s|
  {
    if |s| == 0 then ""
    else if StartsWith(s, "&amp;") then "&" + UnescapeXml(s[5..])
    else if StartsWith(s, "&lt;") then "<" + UnescapeXml(s[4..])
    else if StartsWith(s, "&gt;") then ">" + UnescapeXml(s[4..])
    else if StartsWith(s, "&quot;") then "\"" + UnescapeXml(s[6..])
    else if StartsWith(s, "&apos;") then "'" + UnescapeXml(s[6..])
    else [s[0]] + UnescapeXml(s[1..])
  }

  lemma UnescapeStep(c: char, rest: string)
    ensures UnescapeXml(EscapeChar(c) + rest) == [c] + UnescapeXml(rest)
  {
    var s := EscapeChar(c) + rest;
    if c == '&' {
      assert s[..5] == "&amp;" && s[5..] == rest;
    } else if c == '<' {
      assert s[..4] == "&lt;" && s[4..] == rest;
      DiffersAt(s, "&amp;", 1);
    } else if c == '>' {
      assert s[..4] == "&gt;" && s[4..] == rest;
      DiffersAt(s, "&amp;", 1);
      DiffersAt(s, "&lt;", 1);
    } else if c == '"' {
      assert s[..6] == "&quot;" && s[6..] == rest;
      DiffersAt(s, "&amp;", 1);
      DiffersAt(s, "&lt;", 1);
      DiffersAt(s, "&gt;", 1);
    } else if c == '\'' {
      assert s[..6] == "&apos;" && s[6..] == rest;
      DiffersAt(s, "&amp;", 2);
      DiffersAt(s, "&lt;", 1);
      DiffersAt(s, "&gt;", 1);
      DiffersAt(s, "&quot;", 1);
    } else {
      assert s[0] == c && s[1..] == rest;
      DiffersAt(s, "&amp;", 0);
      DiffersAt(s, "&lt;", 0);
      DiffersAt(s, "&gt;", 0);
      DiffersAt(s, "&quot;", 0);
      DiffersAt(s, "&apos;", 0);
    }
  }

  /** Escaping loses nothing: unescaping the escaped text gives the text back. */
  lemma {:induction false} UnescapeEscape(s: string)
    ensures UnescapeXml(EscapeXml(s)) == s
    decreases |s|
  {
    if |s| > 0 {
      UnescapeStep(s[0], EscapeXml(s[1..]));
      UnescapeEscape(s[1..]);
    }
  }
}
