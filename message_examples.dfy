/** Messages built by the message builder for the argument shapes of the
    deferredStringbuilder documentation comment, first for any argument
    texts and then for the literal arguments of the comment. */
module MessageExamples {
  import opened Integrity
  import opened MessageProperties

  // ---------------------------------------------------------------------
  // Steps on texts without an opening brace
  // ---------------------------------------------------------------------

  /** StepAppends for an accumulator without an opening brace, in the
      one-equation form the shapes below chain together. */
  lemma AppendStep(s: string, a: Arg)
    requires '{' !in s
    ensures Step(s, a) == if s == "" then Quoted(a) else s + ", " + Quoted(a)
  {
    assert !HasPlaceholder(s);
    StepAppends(s, a);
  }

  /** Filling a placeholder preceded by brace-free text. */
  lemma SubstituteStep(p: string, q: string, a: Arg)
    requires '{' !in p
    ensures Step(p + "{}" + q, a) == p + Text(a) + q
  {
    var s := p + "{}" + q;
    var k := |p|;
    assert s[k] == '{' && s[k + 1] == '}';
    assert s[..k] == p;
    assert s[k + 2..] == q;
    assert forall j :: 0 <= j < k ==> s[j] == p[j];
    StepSubstitutes(s, a, k);
  }

  lemma Accumulate1(a: Arg)
    ensures Accumulate([a]) == Step("", a)
  {
    assert [a][..0] == [];
  }

  lemma Accumulate2(a: Arg, b: Arg)
    ensures Accumulate([a, b]) == Step(Accumulate([a]), b)
  {
    assert [a, b][..1] == [a];
  }

  lemma Accumulate3(a: Arg, b: Arg, c: Arg)
    ensures Accumulate([a, b, c]) == Step(Accumulate([a, b]), c)
  {
    assert [a, b, c][..2] == [a, b];
  }

  lemma Accumulate4(a: Arg, b: Arg, c: Arg, d: Arg)
    ensures Accumulate([a, b, c, d]) == Step(Accumulate([a, b, c]), d)
  {
    assert [a, b, c, d][..3] == [a, b, c];
  }

  // ---------------------------------------------------------------------
  // Argument shapes, for any texts
  // ---------------------------------------------------------------------

  /** Three plain values are joined by ", " (Integrity.cs:405). */
  lemma PlainThree(x: string, y: string, z: string)
    requires x != "" && '{' !in x && '{' !in y
    ensures Message("", Args([Other(x), Other(y), Other(z)])) == x + ", " + y + ", " + z
  {
    Accumulate1(Other(x));
    Accumulate2(Other(x), Other(y));
    Accumulate3(Other(x), Other(y), Other(z));
    AppendStep("", Other(x));
    AppendStep(x, Other(y));
    assert '{' !in x + ", " + y;
    AppendStep(x + ", " + y, Other(z));
  }

  /** A string between two values is the only quoted part (Integrity.cs:407). */
  lemma StringAmongValues(x: string, str: string, z: string)
    requires x != "" && '{' !in x && '{' !in str
    ensures Message("", Args([Other(x), Str(str), Other(z)])) == x + ", '" + str + "', " + z
  {
    Accumulate1(Other(x));
    Accumulate2(Other(x), Str(str));
    Accumulate3(Other(x), Str(str), Other(z));
    AppendStep("", Other(x));
    AppendStep(x, Str(str));
    assert x + ", " + Quoted(Str(str)) == x + ", '" + str + "'";
    assert '{' !in x + ", '" + str + "'";
    AppendStep(x + ", '" + str + "'", Other(z));
  }

  /** A template first argument is appended to the empty accumulator, so
      the whole result is wrapped in quotes; the second argument fills its
      placeholder with its bare text (Integrity.cs:403). */
  lemma TemplateThenValue(p: string, q: string, a: Arg)
    requires '{' !in p
    ensures Accumulate([Str(p + "{}" + q), a]) == "'" + p + Text(a) + q + "'"
    ensures Message("", Args([Str(p + "{}" + q), a])) == "'" + p + Text(a) + q + "'"
  {
    Accumulate1(Str(p + "{}" + q));
    Accumulate2(Str(p + "{}" + q), a);
    AppendStep("", Str(p + "{}" + q));
    assert "'" + (p + "{}" + q) + "'" == ("'" + p) + "{}" + (q + "'");
    SubstituteStep("'" + p, q + "'", a);
  }

  /** A string first argument without placeholders is quoted, and the next
      value is concatenated after ", " (Integrity.cs:404). */
  lemma StringThenValue(str: string, t: string)
    requires '{' !in str
    ensures Message("", Args([Str(str), Other(t)])) == "'" + str + "', " + t
  {
    Accumulate1(Str(str));
    Accumulate2(Str(str), Other(t));
    AppendStep("", Str(str));
    AppendStep("'" + str + "'", Other(t));
  }

  lemma NestedTemplateFilled(p: string, w1: string, w2: string)
    requires '{' !in p
    ensures Accumulate([Str(p + "{}"), Str(w1 + "{}" + w2 + "{}")]) == ("'" + p + w1) + "{}" + (w2 + "{}'")
  {
    var t, w := Str(p + "{}"), Str(w1 + "{}" + w2 + "{}");
    Accumulate1(t);
    AppendStep("", t);
    assert "'" + (p + "{}") + "'" == ("'" + p) + "{}" + "'";
    Accumulate2(t, w);
    SubstituteStep("'" + p, "'", w);
    assert ("'" + p) + (w1 + "{}" + w2 + "{}") + "'" == ("'" + p + w1) + "{}" + (w2 + "{}'");
  }

  lemma NestedTemplatePrefix(p: string, w1: string, w2: string, x: string)
    requires '{' !in p && '{' !in w1 && '{' !in x
    ensures Accumulate([Str(p + "{}"), Str(w1 + "{}" + w2 + "{}"), Other(x)])
         == ("'" + p + w1 + x + w2) + "{}" + "'"
  {
    var t, w := Str(p + "{}"), Str(w1 + "{}" + w2 + "{}");
    var s2 := ("'" + p + w1) + "{}" + (w2 + "{}'");
    assert Step(s2, Other(x)) == ("'" + p + w1 + x + w2) + "{}" + "'" by {
      SubstituteStep("'" + p + w1, w2 + "{}'", Other(x));
      assert ("'" + p + w1) + x + (w2 + "{}'") == ("'" + p + w1 + x + w2) + "{}" + "'";
    }
    NestedTemplateFilled(p, w1, w2);
    Accumulate3(t, w, Other(x));
  }

  /** A string substituted into the template brings two placeholders of
      its own, which the next two values fill (Integrity.cs:408). */
  lemma NestedTemplateShape(p: string, w1: string, w2: string, x: string, y: string)
    requires '{' !in p && '{' !in w1 && '{' !in w2 && '{' !in x
    ensures Message("", Args([Str(p + "{}"), Str(w1 + "{}" + w2 + "{}"), Other(x), Other(y)]))
         == "'" + p + w1 + x + w2 + y + "'"
  {
    NestedTemplatePrefix(p, w1, w2, x);
    Accumulate4(Str(p + "{}"), Str(w1 + "{}" + w2 + "{}"), Other(x), Other(y));
    SubstituteStep("'" + p + w1 + x + w2, "'", Other(y));
  }

  lemma OverflowFilled(p: string, m: string, q: string, x: string)
    requires '{' !in p
    ensures Accumulate([Str(p + "{}" + m + "{}" + q), Other(x)]) == ("'" + p + x + m) + "{}" + (q + "'")
  {
    TemplateThenValue(p, m + "{}" + q, Other(x));
    assert p + "{}" + (m + "{}" + q) == p + "{}" + m + "{}" + q;
    assert "'" + p + x + (m + "{}" + q) + "'" == ("'" + p + x + m) + "{}" + (q + "'");
  }

  lemma OverflowPrefix(p: string, m: string, q: string, x: string, y: string)
    requires '{' !in p && '{' !in m && '{' !in x
    ensures Accumulate([Str(p + "{}" + m + "{}" + q), Other(x), Other(y)]) == "'" + p + x + m + y + q + "'"
  {
    var t := Str(p + "{}" + m + "{}" + q);
    OverflowFilled(p, m, q, x);
    Accumulate3(t, Other(x), Other(y));
    SubstituteStep("'" + p + x + m, q + "'", Other(y));
    assert ("'" + p + x + m) + y + (q + "'") == "'" + p + x + m + y + q + "'";
  }

  /** Once both placeholders of the template are filled, the last value
      is concatenated after the quoted template (Integrity.cs:409). */
  lemma OverflowShape(p: string, m: string, q: string, x: string, y: string, z: string)
    requires '{' !in p && '{' !in m && '{' !in q && '{' !in x && '{' !in y
    ensures Message("", Args([Str(p + "{}" + m + "{}" + q), Other(x), Other(y), Other(z)]))
         == "'" + p + x + m + y + q + "', " + z
  {
    OverflowPrefix(p, m, q, x, y);
    assert '{' !in "'" + p + x + m + y + q + "'";
    Accumulate4(Str(p + "{}" + m + "{}" + q), Other(x), Other(y), Other(z));
    AppendStep("'" + p + x + m + y + q + "'", Other(z));
  }

  // ---------------------------------------------------------------------
  // The literal examples of the documentation comment
  // ---------------------------------------------------------------------

  // deferredStringbuilder(1, 2, 3)
  const ListArgs: seq<Arg> := [Other("1"), Other("2"), Other("3")]
  // deferredStringbuilder(true, "str", 1.1)
  const MixedArgs: seq<Arg> := [Other("True"), Str("str"), Other("1.1")]
  // deferredStringbuilder("this is {}", 1)
  const TemplateArgs: seq<Arg> := [Str("this is {}"), Other("1")]
  // deferredStringbuilder("this is", 1)
  const ConcatArgs: seq<Arg> := [Str("this is"), Other("1")]
  // deferredStringbuilder("{} {}", 1, 2, 3)
  const OverflowArgs: seq<Arg> := [Str("{} {}"), Other("1"), Other("2"), Other("3")]

  // The documented texts, assembled from the pieces the shapes above produce.

  lemma ListText()
    ensures "1" + ", " + "2" + ", " + "3" == "1, 2, 3"
  {
  }

  lemma MixedText()
    ensures "True" + ", '" + "str" + "', " + "1.1" == "True, 'str', 1.1"
  {
  }

  lemma TemplateText()
    ensures "this is " + "{}" + "" == "this is {}"
    ensures "'" + "this is " + "1" + "" + "'" == "'this is 1'"
  {
  }

  lemma ConcatText()
    ensures "'" + "this is" + "', " + "1" == "'this is', 1"
  {
  }

  lemma OverflowText()
    ensures "" + "{}" + " " + "{}" + "" == "{} {}"
    ensures "'" + "" + "1" + " " + "2" + "" + "', " + "3" == "'1 2', 3"
  {
  }

  /** deferredStringbuilder(1, 2, 3) is "1, 2, 3", as documented. */
  lemma ListOfThree()
    ensures Message("", Args(ListArgs)) == "1, 2, 3"
  {
    PlainThree("1", "2", "3");
    ListText();
  }

  /** deferredStringbuilder(true, "str", 1.1) is "True, 'str', 1.1", as documented. */
  lemma MixedList()
    ensures Message("", Args(MixedArgs)) == "True, 'str', 1.1"
  {
    StringAmongValues("True", "str", "1.1");
    MixedText();
  }

  /** deferredStringbuilder("this is {}", 1) is "'this is 1'", with the
      quotes, and not the documented "This is 1". */
  lemma TemplateFirstIsQuoted()
    ensures Message("", Args(TemplateArgs)) == "'this is 1'"
    ensures Message("", Args(TemplateArgs)) != "This is 1"
  {
    TemplateThenValue("this is ", "", Other("1"));
    TemplateText();
  }

  /** deferredStringbuilder("this is", 1) is "'this is', 1", not the
      documented "This is, 1". */
  lemma ConcatFirstIsQuoted()
    ensures Message("", Args(ConcatArgs)) == "'this is', 1"
    ensures Message("", Args(ConcatArgs)) != "This is, 1"
  {
    StringThenValue("this is", "1");
    ConcatText();
  }

  /** deferredStringbuilder("This is {}", "weird {} {}", x, y) is
      "'This is weird x y'" with the quotes; for x = 1 and y = 2 the
      documented "This is weird 1 2" has none. */
  lemma NestedTemplate(x: string, y: string)
    requires '{' !in x
    ensures Message("", Args([Str("This is {}"), Str("weird {} {}"), Other(x), Other(y)]))
         == "'This is weird " + x + " " + y + "'"
    ensures x == "1" && y == "2" ==>
      Message("", Args([Str("This is {}"), Str("weird {} {}"), Other(x), Other(y)])) != "This is weird 1 2"
  {
    NestedLiterals(x, y);
    NestedTemplateShape("This is ", "weird ", " ", x, y);
  }

  lemma NestedLiterals(x: string, y: string)
    ensures "This is " + "{}" == "This is {}"
    ensures "weird " + "{}" + " " + "{}" == "weird {} {}"
    ensures "'" + "This is " + "weird " + x + " " + y + "'" == "'This is weird " + x + " " + y + "'"
  {
  }

  /** deferredStringbuilder("{} {}", 1, 2, 3) is "'1 2', 3", not the
      documented "1 2, 3". */
  lemma OverflowTemplate()
    ensures Message("", Args(OverflowArgs)) == "'1 2', 3"
    ensures Message("", Args(OverflowArgs)) != "1 2, 3"
  {
    OverflowShape("", " ", "", "1", "2", "3");
    OverflowText();
  }

  /** The default message is not a template: with an argument it is dropped. */
  lemma DefaultIsNotTemplate(x: string)
    ensures Message("a{}b", Args([Other(x)])) == x
    ensures Message("x", Args([Other(x)])) == x
    ensures Message("x", Args([])) == "x"
  {
    Accumulate1(Other(x));
    AppendStep("", Other(x));
  }

  /** A string is quoted when concatenated and bare when substituted. */
  lemma QuotingOnlyOnAppend(x: string, str: string)
    requires x != "" && '{' !in x
    ensures Message("", Args([Other(x), Str(str)])) == x + ", '" + str + "'"
    ensures Message("", Args([Str(x + "{}"), Str(str)])) == "'" + x + str + "'"
  {
    Accumulate1(Other(x));
    Accumulate2(Other(x), Str(str));
    AppendStep("", Other(x));
    AppendStep(x, Str(str));
    TemplateThenValue(x, "", Str(str));
    assert x + "{}" + "" == x + "{}";
    assert "'" + x + str + "" + "'" == "'" + x + str + "'";
  }

  /** No separator is written while the accumulator is still empty. */
  lemma SeparatorOnlyAfterText(w: string, x: string)
    requires w != "" && '{' !in w
    ensures Message("", Args([Other(""), Other(x)])) == x
    ensures Message("", Args([Other(w), Other(""), Other(x)])) == w + ", , " + x
  {
    Accumulate1(Other(""));
    Accumulate2(Other(""), Other(x));
    AppendStep("", Other(""));
    AppendStep("", Other(x));
    PlainThree(w, "", x);
    assert w + ", " + "" + ", " + x == w + ", , " + x;
  }
}
