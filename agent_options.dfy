/**
 * The option flags that `Agent_OnLoad` derives from the agent's option string,
 * each one a plain substring test (`strstr(options, word) != NULL`).
 */
module AgentOptions {

  /** `needle` occurs in `s` starting at index `i`. */
  predicate OccursAt(s: string, needle: string, i: nat) {
    i + |needle| <= |s| && s[i..i + |needle|] == needle
  }

  /** `strstr(s, needle) != NULL`: the first occurrence is searched from the left. */
  function Contains(s: string, needle: string): (r: bool)
    ensures r <==> exists i: nat :: OccursAt(s, needle, i)
    decreases |s|
  {
    if |needle| <= |s| && s[..|needle|] == needle then
      assert OccursAt(s, needle, 0);
      true
    else if s == [] then
      false
    else
      ShiftOccurrence(s, needle);
      Contains(s[1..], needle)
  }

  /** An occurrence in `s` past index 0 is an occurrence in `s[1..]`, one place earlier. */
  lemma ShiftOccurrence(s: string, needle: string)
    requires s != []
    requires !OccursAt(s, needle, 0)
    ensures (exists i: nat :: OccursAt(s, needle, i)) <==> (exists i: nat :: OccursAt(s[1..], needle, i))
  {
    forall i: nat | OccursAt(s, needle, i)
      ensures OccursAt(s[1..], needle, i - 1)
    {
      assert i > 0;
      assert s[1..][i - 1..i - 1 + |needle|] == s[i..i + |needle|];
    }
    forall i: nat | OccursAt(s[1..], needle, i)
      ensures OccursAt(s, needle, i + 1)
    {
      assert s[1..][i..i + |needle|] == s[i + 1..i + 1 + |needle|];
    }
  }

  /** The flags of the agent, as globals in the agent. */
  datatype Options = Options(
    unfoldInlinedMethods: bool,
    unfoldSimple: bool,
    unfoldAll: bool,
    printMethodSignatures: bool,
    printSourceLoc: bool,
    cleanClassNames: bool,
    debugDumpUnfoldEntries: bool)

  /** The flag derivation at the start of `Agent_OnLoad`. */
  function ParseOptions(options: string): (o: Options)
    ensures o.unfoldSimple ==> o.unfoldInlinedMethods
    ensures o.unfoldAll ==> o.unfoldInlinedMethods
  {
    var unfoldSimple := Contains(options, "unfoldsimple");
    var unfoldAll := Contains(options, "unfoldall");
    Options(
      unfoldInlinedMethods := Contains(options, "unfold") || unfoldSimple || unfoldAll,
      unfoldSimple := unfoldSimple,
      unfoldAll := unfoldAll,
      printMethodSignatures := Contains(options, "msig"),
      printSourceLoc := Contains(options, "sourcepos"),
      cleanClassNames := Contains(options, "dottedclass"),
      debugDumpUnfoldEntries := Contains(options, "debug_dump_unfold_entries"))
  }

  /** Whenever `word` occurs in `s`, so does every piece of it. */
  lemma {:induction false} InnerOccurrence(s: string, word: string, offset: nat, piece: string)
    requires Contains(s, word)
    requires offset + |piece| <= |word| && word[offset..offset + |piece|] == piece
    ensures Contains(s, piece)
  {
    var i: nat :| OccursAt(s, word, i);
    forall k | 0 <= k < |piece|
      ensures s[i + offset + k] == piece[k]
    {
      assert s[i..i + |word|][offset + k] == word[offset + k];
    }
    assert s[i + offset..i + offset + |piece|] == word[offset..offset + |piece|];
    assert OccursAt(s, piece, i + offset);
  }

  /**
   * The two longer unfolding words contain "unfold", so the disjunction in the
   * source is redundant: unfolding is on exactly when "unfold" occurs anywhere,
   * which includes the word "debug_dump_unfold_entries".
   */
  lemma UnfoldingFlag(options: string)
    ensures ParseOptions(options).unfoldInlinedMethods <==> Contains(options, "unfold")
    ensures ParseOptions(options).debugDumpUnfoldEntries ==> ParseOptions(options).unfoldInlinedMethods
  {
    if Contains(options, "unfoldsimple") {
      InnerOccurrence(options, "unfoldsimple", 0, "unfold");
    }
    if Contains(options, "unfoldall") {
      InnerOccurrence(options, "unfoldall", 0, "unfold");
    }
    if Contains(options, "debug_dump_unfold_entries") {
      var w := "debug_dump_unfold_entries";
      assert w[11] == 'u' && w[12] == 'n' && w[13] == 'f' && w[14] == 'o' && w[15] == 'l' && w[16] == 'd';
      assert w[11..17] == "unfold";
      InnerOccurrence(options, w, 11, "unfold");
    }
  }
}
