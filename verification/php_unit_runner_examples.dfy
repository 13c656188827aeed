/** The command lines the project's test suite expects of `buildCommand`. */
module PhpUnitRunnerExamples {
  import opened PhpUnitRunner

  const Phpunit := "vendor/bin/phpunit"

  lemma BareCommand()
    ensures BuildCommand(Phpunit, "", "") == Phpunit
  {
    BuildCommandLayout(Phpunit, "", "");
  }

  /** A filter holding `|` is passed as one single-quoted word. */
  lemma PipeIsQuoted()
    ensures var filter := "FooTest::testA" + "|" + "BarTest::testB";
      BuildCommand(Phpunit, filter, "") == Phpunit + " --filter " + "'" + filter + "'"
  {
    var filter := "FooTest::testA" + "|" + "BarTest::testB";
    assert forall k :: 0 <= k < |filter| ==> filter[k] != '\'';
    EscapePlain(filter);
  }

  /** Extra arguments alone are appended after one space, with no `--filter`. */
  lemma ArgumentsOnly()
    ensures BuildCommand(Phpunit, "", "--stop-on-failure") == Phpunit + " " + "--stop-on-failure"
  {
    BuildCommandLayout(Phpunit, "", "--stop-on-failure");
  }

  /** A quote inside the filter is closed, escaped and reopened. */
  lemma QuoteInFilter()
    ensures BuildCommand(Phpunit, "it's", "") == Phpunit + " --filter " + "'it'\\''s'"
  {
    assert "it's"[1..] == "t's" && "t's"[1..] == "'s" && "'s"[1..] == "s" && "s"[1..] == [];
    assert EscapeShellArg("it's") == "'it'\\''s'";
  }
}
