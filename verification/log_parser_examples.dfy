/**
 The behaviour the project's test suite expects of `extractFailedTests`, derived from the
 general lemmas of `LogParser`, and the two places where the character classes as written
 disagree with it.
 */
module LogParserExamples {
  import opened Text
  import opened LogParser
  import Wrappers

  const FailedLine := "\nFailed asserting that false is true."

  lemma MarkerOne()
    ensures IsMarker("1) ")
  {
    assert AllIn("1) ", 0, 1, Digits);
  }

  lemma MarkerTwo()
    ensures IsMarker("2) ")
  {
    assert AllIn("2) ", 0, 1, Digits);
  }

  lemma QuietFailedLine()
    ensures NoMarker(FailedLine)
  {
  }

  lemma QuietSummary()
    ensures NoMarker("OK (42 tests, 86 assertions)\n")
  {
  }

  lemma QuietBareIdentifier()
    ensures NoMarker("SomeClass::testMethod" + " failed for other reasons")
  {
    var a, b := "SomeClass::testMethod", " failed for other reasons";
    assert NoMarker(a);
    assert NoMarker(b);
    NoMarkerConcat(a, b);
  }

  lemma EmptyLog(g: Charset)
    ensures ExtractFailedTests("", g) == []
  {
  }

  /** A summary line and a bare identifier without a numbered marker yield nothing. */
  lemma NoNumberedFailures(g: Charset)
    ensures ExtractFailedTests("OK (42 tests, 86 assertions)\n", g) == []
    ensures ExtractFailedTests("SomeClass::testMethod" + " failed for other reasons", g) == []
  {
    QuietSummary();
    QuietBareIdentifier();
    NoMarkerNoTests("OK (42 tests, 86 assertions)\n", g);
    NoMarkerNoTests("SomeClass::testMethod" + " failed for other reasons", g);
  }

  const FooSomething := "Acme\\Tests\\FooTest::testSomething"
  const BarOther := "Acme\\Tests\\BarTest::testOtherThing"
  const NullLine := "\nFailed asserting that null is not null."

  lemma FooSomethingParts(g: Charset)
    ensures "Acme\\Tests\\FooTest" + "::" + "testSomething" == FooSomething
    ensures AllIn("Acme\\Tests\\FooTest", 0, |"Acme\\Tests\\FooTest"|, ClassName(g))
    ensures AllIn("testSomething", 0, |"testSomething"|, MethodName(g))
  {
  }

  lemma FooSomethingIsTestId(g: Charset)
    ensures IsTestId(g, FooSomething)
  {
    FooSomethingParts(g);
    TestIdFrom(g, "Acme\\Tests\\FooTest", "testSomething");
  }

  lemma BarOtherParts(g: Charset)
    ensures "Acme\\Tests\\BarTest" + "::" + "testOtherThing" == BarOther
    ensures AllIn("Acme\\Tests\\BarTest", 0, |"Acme\\Tests\\BarTest"|, ClassName(g))
    ensures AllIn("testOtherThing", 0, |"testOtherThing"|, MethodName(g))
  {
  }

  lemma BarOtherIsTestId(g: Charset)
    ensures IsTestId(g, BarOther)
  {
    BarOtherParts(g);
    TestIdFrom(g, "Acme\\Tests\\BarTest", "testOtherThing");
  }

  lemma QuietHeading()
    ensures NoMarker("There was 1 failure:\n\n")
    ensures NoMarker("There were 2 failures:\n\n")
  {
  }

  /** A log holding one entry, numbered 1, and a message after it: that entry's identifier. */
  lemma OneEntry(g: Charset, id: string, last: string)
    requires IsTestId(g, id)
    requires NoMarker(last) && (last == [] || !MethodChar(g, last[0]))
    ensures ExtractFailedTests("1) " + id + last, g) == [id]
  {
    MarkerOne();
    ExtractsWhole(g, "1) ", id, last);
    NoMarkerNoTests(last, g);
  }

  /** A heading, then one entry numbered 1 and its message: that entry's identifier. */
  lemma EntryAfterHeading(g: Charset, head: string, id: string, last: string)
    requires NoMarker(head) && 0 < |head| && !IsDigit(head[|head| - 1])
    requires IsTestId(g, id)
    requires NoMarker(last) && (last == [] || !MethodChar(g, last[0]))
    ensures ExtractFailedTests(head + "1) " + id + last, g) == [id]
  {
    var rest := "1) " + id + last;
    assert head + "1) " + id + last == head + rest;
    ExtractAfterQuietPrefix(head, rest, g);
    OneEntry(g, id, last);
  }

  /** The summary heading above a single failure is skipped; its identifier is extracted. */
  lemma SingleNamespacedFailure(g: Charset)
    ensures ExtractFailedTests("There was 1 failure:\n\n" + "1) " + FooSomething + FailedLine, g) == [FooSomething]
  {
    QuietHeading();
    QuietFailedLine();
    FooSomethingIsTestId(g);
    assert "There was 1 failure:\n\n"[21] == '\n' && FailedLine[0] == '\n';
    EntryAfterHeading(g, "There was 1 failure:\n\n", FooSomething, FailedLine);
  }

  lemma QuietNullLine()
    ensures NoMarker(NullLine)
  {
  }

  lemma QuietGap()
    ensures NoMarker(FailedLine + "\n\n")
  {
    QuietFailedLine();
    NoMarkerConcat(FailedLine, "\n\n");
  }

  /**
   A heading, a first entry with its message, then a second entry with its message: the
   two identifiers, in order.
   */
  lemma TwoEntries(g: Charset, head: string, id1: string, gap: string, id2: string, last: string)
    requires NoMarker(head) && 0 < |head| && !IsDigit(head[|head| - 1])
    requires IsTestId(g, id1) && IsTestId(g, id2)
    requires NoMarker(gap) && 0 < |gap| && !MethodChar(g, gap[0]) && !IsDigit(gap[|gap| - 1])
    requires NoMarker(last) && (last == [] || !MethodChar(g, last[0]))
    ensures ExtractFailedTests(head + "1) " + id1 + gap + "2) " + id2 + last, g) == [id1, id2]
  {
    var second := "2) " + id2 + last;
    var tail := gap + second;
    var body := "1) " + id1 + tail;
    assert head + "1) " + id1 + gap + "2) " + id2 + last == head + body;
    ExtractAfterQuietPrefix(head, body, g);
    MarkerOne();
    assert tail[0] == gap[0];
    ExtractsWhole(g, "1) ", id1, tail);
    ExtractAfterQuietPrefix(gap, second, g);
    MarkerTwo();
    ExtractsWhole(g, "2) ", id2, last);
    NoMarkerNoTests(last, g);
  }

  /** Two listed failures are extracted in the order they appear. */
  lemma MultipleFailures(g: Charset)
    ensures ExtractFailedTests("There were 2 failures:\n\n" + "1) " + FooSomething + (FailedLine + "\n\n")
      + "2) " + BarOther + NullLine, g) == [FooSomething, BarOther]
  {
    var head, gap := "There were 2 failures:\n\n", FailedLine + "\n\n";
    QuietHeading();
    QuietGap();
    QuietNullLine();
    FooSomethingIsTestId(g);
    BarOtherIsTestId(g);
    assert head[|head| - 1] == '\n' && gap[0] == '\n' && gap[|gap| - 1] == '\n' && NullLine[0] == '\n';
    TwoEntries(g, head, FooSomething, gap, BarOther, NullLine);
  }

  /** A failure followed by a short message. */
  lemma ShortFooFailure(g: Charset)
    ensures ExtractFailedTests("1) " + FooSomething + "\nFailed.", g) == [FooSomething]
  {
    FooSomethingIsTestId(g);
    QuietShortFailure();
    OneEntry(g, FooSomething, "\nFailed.");
  }

  const ZLast := "Acme\\Tests\\ZTest::testLast"
  const AFirst := "Acme\\Tests\\ATest::testFirst"

  lemma ZLastParts(g: Charset)
    ensures "Acme\\Tests\\ZTest" + "::" + "testLast" == ZLast
    ensures AllIn("Acme\\Tests\\ZTest", 0, |"Acme\\Tests\\ZTest"|, ClassName(g))
    ensures AllIn("testLast", 0, |"testLast"|, MethodName(g))
  {
  }

  lemma ZLastIsTestId(g: Charset)
    ensures IsTestId(g, ZLast)
  {
    ZLastParts(g);
    TestIdFrom(g, "Acme\\Tests\\ZTest", "testLast");
  }

  lemma AFirstParts(g: Charset)
    ensures "Acme\\Tests\\ATest" + "::" + "testFirst" == AFirst
    ensures AllIn("Acme\\Tests\\ATest", 0, |"Acme\\Tests\\ATest"|, ClassName(g))
    ensures AllIn("testFirst", 0, |"testFirst"|, MethodName(g))
  {
  }

  lemma AFirstIsTestId(g: Charset)
    ensures IsTestId(g, AFirst)
  {
    AFirstParts(g);
    TestIdFrom(g, "Acme\\Tests\\ATest", "testFirst");
  }

  lemma AFirstOnNextLine(g: Charset)
    ensures ExtractFailedTests("\n" + ("2) " + AFirst), g) == [AFirst]
  {
    assert NoMarker("\n");
    ExtractAfterQuietPrefix("\n", "2) " + AFirst, g);
    AFirstIsTestId(g);
    MarkerTwo();
    ExtractsWhole(g, "2) ", AFirst, "");
    assert "2) " + AFirst + "" == "2) " + AFirst;
  }

  /** Two entries on consecutive lines: both identifiers, in log order. */
  lemma TwoLines(g: Charset, id1: string, id2: string)
    requires IsTestId(g, id1) && IsTestId(g, id2)
    ensures ExtractFailedTests("1) " + id1 + "\n" + "2) " + id2, g) == [id1, id2]
  {
    var second := "2) " + id2;
    var tail := "\n" + second;
    MarkerOne();
    ExtractsWhole(g, "1) ", id1, tail);
    assert "1) " + id1 + "\n" + "2) " + id2 == "1) " + id1 + tail;
    assert NoMarker("\n");
    ExtractAfterQuietPrefix("\n", second, g);
    MarkerTwo();
    ExtractsWhole(g, "2) ", id2, "");
    assert second + "" == second;
  }

  /** Failures are returned in log order, not sorted. */
  lemma LogOrderKept(g: Charset)
    ensures ExtractFailedTests("1) " + ZLast + "\n" + "2) " + AFirst, g) == [ZLast, AFirst]
  {
    ZLastIsTestId(g);
    AFirstIsTestId(g);
    TwoLines(g, ZLast, AFirst);
  }

  const NestedClass := "Vendor\\Package\\" + "Sub\\Tests\\FooTest"

  lemma NestedId()
    ensures NestedClass + "::" + "testBar" == "Vendor\\Package\\Sub\\Tests\\FooTest::testBar"
  {
  }

  lemma NestedChars(g: Charset)
    ensures AllIn("Vendor\\Package\\", 0, 15, ClassName(g))
    ensures AllIn("Sub\\Tests\\FooTest", 0, 17, ClassName(g))
    ensures AllIn("testBar", 0, 7, MethodName(g))
  {
  }

  lemma NestedParts(g: Charset)
    ensures AllIn(NestedClass, 0, |NestedClass|, ClassName(g))
    ensures AllIn("testBar", 0, 7, MethodName(g))
  {
    NestedChars(g);
    AllInJoin("Vendor\\Package\\", "Sub\\Tests\\FooTest", ClassName(g));
  }

  /** Namespaces of any depth are part of the class name. */
  lemma DeeplyNestedNamespace(g: Charset)
    ensures var id := "Vendor\\Package\\Sub\\Tests\\FooTest::testBar";
      ExtractFailedTests("1) " + id + "\nFailed.", g) == [id]
  {
    NestedId();
    NestedParts(g);
    TestIdFrom(g, NestedClass, "testBar");
    QuietShortFailure();
    OneEntry(g, "Vendor\\Package\\Sub\\Tests\\FooTest::testBar", "\nFailed.");
  }

  lemma UnderscoreParts(g: Charset)
    ensures "Acme_Tests_Foo_Test" + "::" + "test_something" == "Acme_Tests_Foo_Test::test_something"
    ensures AllIn("Acme_Tests_Foo_Test", 0, 19, ClassName(g))
    ensures AllIn("test_something", 0, 14, MethodName(g))
  {
  }

  /** Underscores belong to both class and method names. */
  lemma UnderscoresInNames(g: Charset)
    ensures var id := "Acme_Tests_Foo_Test::test_something";
      ExtractFailedTests("1) " + id + "\nFailed.", g) == [id]
  {
    UnderscoreParts(g);
    TestIdFrom(g, "Acme_Tests_Foo_Test", "test_something");
    QuietShortFailure();
    OneEntry(g, "Acme_Tests_Foo_Test::test_something", "\nFailed.");
  }

  lemma PlainParts(g: Charset)
    ensures "FooTest" + "::" + "testSomething" == "FooTest::testSomething"
    ensures AllIn("FooTest", 0, 7, ClassName(g))
    ensures AllIn("testSomething", 0, 13, MethodName(g))
  {
  }

  /** A non-namespaced identifier after `1) ` is extracted. */
  lemma NonNamespacedFailure(g: Charset)
    ensures ExtractFailedTests("1) " + "FooTest::testSomething" + FailedLine, g) == ["FooTest::testSomething"]
  {
    PlainParts(g);
    TestIdFrom(g, "FooTest", "testSomething");
    QuietFailedLine();
    OneEntry(g, "FooTest::testSomething", FailedLine);
  }

  lemma RepeatedParts(g: Charset)
    ensures "Acme\\FooTest" + "::" + "testBar" == "Acme\\FooTest::testBar"
    ensures AllIn("Acme\\FooTest", 0, 12, ClassName(g))
    ensures AllIn("testBar", 0, 7, MethodName(g))
  {
  }

  /** The same failure listed twice is returned twice. */
  lemma DuplicatesKept(g: Charset)
    ensures var id := "Acme\\FooTest::testBar";
      ExtractFailedTests("1) " + id + "\n" + "2) " + id, g) == [id, id]
  {
    RepeatedParts(g);
    TestIdFrom(g, "Acme\\FooTest", "testBar");
    TwoLines(g, "Acme\\FooTest::testBar", "Acme\\FooTest::testBar");
  }

  /** The class-name part of the identifier the suite expects for a class containing digits. */
  const StraussClass := "BrianHenryIE\\Strauss\\Tests\\Issues\\" + "StraussIssue" + "49" + "Test"
  const StraussMethod := "test_local_symlinked_repositories_fail"

  lemma StraussParts(g: Charset)
    ensures AllIn(StraussMethod, 0, |StraussMethod|, MethodName(g))
    ensures g == WithDigits ==> AllIn(StraussClass, 0, |StraussClass|, ClassName(g))
  {
    if g == WithDigits {
      var ns := "BrianHenryIE\\Strauss\\Tests\\Issues\\";
      assert AllIn(ns, 0, |ns|, ClassName(g));
      assert AllIn("StraussIssue", 0, 12, ClassName(g));
      assert AllIn("49", 0, 2, ClassName(g));
      assert AllIn("Test", 0, 4, ClassName(g));
      AllInJoin(ns, "StraussIssue", ClassName(g));
      AllInJoin(ns + "StraussIssue", "49", ClassName(g));
      AllInJoin(ns + "StraussIssue" + "49", "Test", ClassName(g));
    }
  }

  lemma QuietShortFailure()
    ensures NoMarker("\nFailed.")
  {
  }

  /** A run of characters of the literal classes holds no digit, so no marker. */
  lemma LiteralRunQuiet(t: string)
    requires AllIn(t, 0, |t|, ClassName(AsWritten))
    ensures NoMarker(t)
  {
    forall k | 0 <= k < |t| - 1
      ensures !(IsDigit(t[k]) && t[k + 1] == ')')
    {
      assert InClass(ClassName(AsWritten), t[k]);
    }
  }

  /** A run of digits holds no `)`, so no marker. */
  lemma DigitRunQuiet(t: string)
    requires AllIn(t, 0, |t|, Digits)
    ensures NoMarker(t)
  {
    forall k | 0 <= k < |t| - 1
      ensures !(IsDigit(t[k]) && t[k + 1] == ')')
    {
      assert InClass(Digits, t[k + 1]);
    }
  }

  /**
   Under the literal classes, an entry whose class name holds a run of digits after its first
   character is not a match: the class run stops at the digit, where `::` was required.
   */
  lemma DigitStopsClassRun(pre: string, rest: string)
    requires 0 < |pre| && AllIn(pre, 0, |pre|, ClassName(AsWritten))
    requires 0 < |rest| && IsDigit(rest[0])
    ensures MatchAt("1) " + pre + rest, 0, AsWritten).None?
  {
    var s := "1) " + pre + rest;
    var g := AsWritten;
    assert AllIn(s, 0, 1, Digits) && !IsDigit(s[1]);
    RunEndExact(s, 0, 1, Digits);
    assert s[3] == pre[0] && InClass(ClassName(g), pre[0]);
    assert AllIn(s, 2, 3, Spaces) && !IsSpace(s[3]);
    RunEndExact(s, 2, 3, Spaces);
    assert MarkerEnd(s, 0) == Wrappers.Some(3);
    var c := 3 + |pre|;
    assert AllIn(s, 3, c, ClassName(g)) by {
      forall t | 3 <= t < c
        ensures InClass(ClassName(g), s[t])
      {
        assert s[t] == pre[t - 3];
      }
    }
    assert s[c] == rest[0];
    RunEndExact(s, 3, c, ClassName(g));
    assert NameEnd(s, 3, g).None?;
  }

  /** Under the literal classes, an identifier with digits in its class name holds no marker. */
  lemma DigitClassIdQuiet(pre: string, num: string, post: string, meth: string)
    requires 0 < |pre| && AllIn(pre, 0, |pre|, ClassName(AsWritten))
    requires 0 < |num| && AllIn(num, 0, |num|, Digits)
    requires AllIn(post, 0, |post|, ClassName(AsWritten)) && AllIn(meth, 0, |meth|, MethodName(AsWritten))
    ensures NoMarker(pre + num + post + "::" + meth)
    ensures !IsDigit((pre + num + post + "::" + meth)[0])
  {
    var g := AsWritten;
    assert AllIn(meth, 0, |meth|, ClassName(g)) by {
      forall t | 0 <= t < |meth|
        ensures InClass(ClassName(g), meth[t])
      {
        assert InClass(MethodName(g), meth[t]);
      }
    }
    LiteralRunQuiet(pre);
    DigitRunQuiet(num);
    LiteralRunQuiet(post);
    LiteralRunQuiet(meth);
    assert NoMarker("::");
    assert InClass(ClassName(g), pre[0]);
    NoMarkerConcat(pre, num);
    assert post == [] || InClass(ClassName(g), post[0]);
    NoMarkerConcat(pre + num, post);
    NoMarkerConcat(pre + num + post, "::");
    NoMarkerConcat(pre + num + post + "::", meth);
  }

  /**
   Under the literal classes, a log whose only entry has digits inside its class name lists
   no failed test at all.
   */
  lemma DigitClassEntryLost(pre: string, num: string, post: string, meth: string, last: string)
    requires 0 < |pre| && AllIn(pre, 0, |pre|, ClassName(AsWritten))
    requires 0 < |num| && AllIn(num, 0, |num|, Digits)
    requires AllIn(post, 0, |post|, ClassName(AsWritten)) && AllIn(meth, 0, |meth|, MethodName(AsWritten))
    requires NoMarker(last)
    ensures ExtractFailedTests("1) " + pre + num + post + "::" + meth + last, AsWritten) == []
  {
    var id := pre + num + post + "::" + meth;
    DigitEntrySkipped(pre, num + post + "::" + meth + last);
    assert "1) " + pre + (num + post + "::" + meth + last) == "1) " + pre + num + post + "::" + meth + last;
    assert ") " + pre + (num + post + "::" + meth + last) == ") " + id + last;
    DigitClassIdQuiet(pre, num, post, meth);
    assert NoMarker(") ");
    NoMarkerConcat(") ", id);
    assert meth == [] || InClass(MethodName(AsWritten), meth[|meth| - 1]);
    assert id[|id| - 1] == if meth == [] then ':' else meth[|meth| - 1];
    NoMarkerConcat(") " + id, last);
    NoMarkerNoTests(") " + id + last, AsWritten);
  }

  /** The scan passes over the marker of an entry the class run cannot complete. */
  lemma DigitEntrySkipped(pre: string, rest: string)
    requires 0 < |pre| && AllIn(pre, 0, |pre|, ClassName(AsWritten))
    requires 0 < |rest| && IsDigit(rest[0])
    ensures ExtractFailedTests("1) " + pre + rest, AsWritten) == ExtractFailedTests(") " + pre + rest, AsWritten)
  {
    var s := "1) " + pre + rest;
    DigitStopsClassRun(pre, rest);
    ExtractAfterSkip(s, AsWritten);
    assert s[1..] == ") " + pre + rest;
  }

  lemma StraussLiteralParts()
    ensures AllIn("BrianHenryIE\\Strauss\\Tests\\Issues\\" + "StraussIssue", 0, 46, ClassName(AsWritten))
    ensures AllIn("49", 0, 2, Digits) && AllIn("Test", 0, 4, ClassName(AsWritten))
    ensures AllIn(StraussMethod, 0, |StraussMethod|, MethodName(AsWritten))
  {
    var ns := "BrianHenryIE\\Strauss\\Tests\\Issues\\";
    assert AllIn(ns, 0, |ns|, ClassName(AsWritten));
    assert AllIn("StraussIssue", 0, 12, ClassName(AsWritten));
    AllInJoin(ns, "StraussIssue", ClassName(AsWritten));
    StraussParts(AsWritten);
  }

  /**
   With the character classes as written, a class name containing digits is never reported:
   the log of the suite's example lists no failed test at all.
   */
  lemma DigitClassDropped()
    ensures var id := StraussClass + "::" + StraussMethod;
      ExtractFailedTests("1) " + id + "\nFailed.", AsWritten) == []
  {
    var pre := "BrianHenryIE\\Strauss\\Tests\\Issues\\" + "StraussIssue";
    StraussLiteralParts();
    QuietShortFailure();
    DigitClassEntryLost(pre, "49", "Test", StraussMethod, "\nFailed.");
    Regroup("1) ", pre, "49", "Test", StraussMethod, "\nFailed.");
  }

  lemma Regroup(m: string, a: string, b: string, c: string, d: string, e: string)
    ensures m + (a + b + c + "::" + d) + e == m + a + b + c + "::" + d + e
  {
  }

  /** With digits admitted, the same log yields exactly the expected identifier. */
  lemma DigitClassExtracted()
    ensures var id := StraussClass + "::" + StraussMethod;
      ExtractFailedTests("1) " + id + "\nFailed.", WithDigits) == [id]
  {
    StraussParts(WithDigits);
    TestIdFrom(WithDigits, StraussClass, StraussMethod);
    QuietShortFailure();
    OneEntry(WithDigits, StraussClass + "::" + StraussMethod, "\nFailed.");
  }

  /**
   With the character classes as written, a method name is cut at its first digit: the
   failure `FooTest::testCase2` is reported as `FooTest::testCase`.
   */
  lemma MethodDigitTruncated()
    ensures ExtractFailedTests("1) " + "FooTest::testCase" + "2" + FailedLine, AsWritten) == ["FooTest::testCase"]
  {
    var id := "FooTest::testCase";
    TestIdFrom(AsWritten, "FooTest", "testCase");
    assert "FooTest" + "::" + "testCase" == id;
    MarkerOne();
    ExtractsWhole(AsWritten, "1) ", id, "2" + FailedLine);
    assert "1) " + id + "2" + FailedLine == "1) " + id + ("2" + FailedLine);
    assert NoMarker("2" + FailedLine) by {
      assert NoMarker("2");
      QuietFailedLine();
      NoMarkerConcat("2", FailedLine);
    }
    NoMarkerNoTests("2" + FailedLine, AsWritten);
  }

  /** With digits admitted, the whole method name is reported. */
  lemma MethodDigitKept()
    ensures ExtractFailedTests("1) " + "FooTest::testCase" + "2" + FailedLine, WithDigits) == ["FooTest::testCase2"]
  {
    var id := "FooTest::testCase2";
    TestIdFrom(WithDigits, "FooTest", "testCase2");
    assert "FooTest" + "::" + "testCase2" == id;
    assert "1) " + "FooTest::testCase" + "2" + FailedLine == "1) " + id + FailedLine;
    MarkerOne();
    ExtractsWhole(WithDigits, "1) ", id, FailedLine);
    QuietFailedLine();
    NoMarkerNoTests(FailedLine, WithDigits);
  }
}
