/** Which programs are accepted: those the rules write, and each can be printed. */
module ProgramLanguage {
  import opened ParserSyntax
  import opened ExpressionGrammar
  import opened ProgramGrammar
  import opened ProgramPrint
  import opened ProgramRoundTrip
  import opened ProgramUnclear
  import opened ProgramRules
  import opened ProgramAccepts

  /** Whatever is parsed without a report is written by the rules for exactly the tree
      that comes out, to the last token before the end marker. */
  lemma {:induction false} AcceptedByRules(ts: seq<Token>)
    requires ValidTokens(ts) && ProgramAt(ts).Got? && ProgramAt(ts).state.diags == []
    ensures ProgramRule(ts, ProgramAt(ts).value) && ValidProgram(ProgramAt(ts).value)
  {
    hide ValidTokens, ItemsAt, ItemsRule, ValidProgram, UsesFirst, Late;
    var items := ItemsDerive(ts, State(0, []), [], false);
    assert [] + items == items;
    LateNone(items, false);
  }

  /** So every program that is accepted can be printed; parsing that gives the same
      program, unless a condition or a scrutinee has come to end with a bare name
      before empty braces. */
  lemma {:induction false} AcceptedReprints(ts: seq<Token>)
    requires ValidTokens(ts) && ProgramAt(ts).Got? && ProgramAt(ts).state.diags == []
    ensures var items := ProgramAt(ts).value;
      && ValidProgram(items) && ValidTokens(PrintProgram(items))
      && (Gets(ProgramAt(PrintProgram(items)), items, State(|PrintItems(items)|, [])) <==> ClearProgram(items))
  {
    hide ValidTokens, ProgramAt, PrintProgram, PrintItems, ValidProgram, ClearProgram, UsesFirst;
    AcceptedByRules(ts);
    RoundTripIff(ProgramAt(ts).value);
  }
}
