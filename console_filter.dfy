/** The Reolink console filter of the enhanced monitor: `_should_filter` of the
    stream wrapper (cpu_monitor1.py) decides whether a chunk written to
    stdout/stderr is dropped, and `_is_reolink_error` decides whether a log
    message is kept off the console. Both look for the same fixed phrases,
    ignoring ASCII case. */
module ConsoleFilter {
  import opened Text

  /** The phrases `_should_filter` looks for. */
  const StreamPatterns: seq<string> := [
    "handle this channel cmd:",
    "e_bc_cmd_get_wifi_signal",
    "handle:",
    "channel:",
    "cmd param: undefined",
    "-------",
    "e_bc_cmd",
    "cmd param:",
    "undefined"]

  /** The phrases `_is_reolink_error` looks for: the same list, one entry
      written in upper case. */
  const LogPatterns: seq<string> := [
    "handle this channel cmd:",
    "E_BC_CMD_GET_WIFI_SIGNAL",
    "handle:",
    "channel:",
    "cmd param: undefined",
    "-------",
    "e_bc_cmd",
    "cmd param:",
    "undefined"]

  /** Some phrase, lower-cased, occurs in the (already lower-cased) text. */
  predicate Mentions(lowered: string, patterns: seq<string>)
  {
    exists k :: 0 <= k < |patterns| && Contains(lowered, Lower(patterns[k]))
  }

  /** The `for pattern in ...: if pattern.lower() in text_lower: return True`
      scan, in list order. */
  function ScanPatterns(lowered: string, patterns: seq<string>): (found: bool)
    ensures found <==> Mentions(lowered, patterns)
  {
    if patterns == [] then false
    else if Contains(lowered, Lower(patterns[0])) then true
    else
      var found := ScanPatterns(lowered, patterns[1..]);
      assert forall k :: 1 <= k < |patterns| ==> patterns[k] == patterns[1..][k - 1];
      found
  }

  /** `_should_filter`: blank text (nothing left after `strip`) is never
      dropped; other text is dropped when it mentions a phrase. */
  function ShouldFilter(text: string): (drop: bool)
    ensures drop <==> !AllSpace(text) && Mentions(Lower(text), StreamPatterns)
  {
    StripSpec(text);
    if Strip(text) == [] then false
    else ScanPatterns(Lower(text), StreamPatterns)
  }

  /** `_is_reolink_error` */
  function IsReolinkError(message: string): (hit: bool)
    ensures hit <==> Mentions(Lower(message), LogPatterns)
  {
    ScanPatterns(Lower(message), LogPatterns)
  }

  /** The two lists are the same once lower-cased. */
  lemma PatternListsAgree()
    ensures |StreamPatterns| == |LogPatterns|
    ensures forall k :: 0 <= k < |StreamPatterns| ==> Lower(StreamPatterns[k]) == Lower(LogPatterns[k])
  {
    assert Lower(StreamPatterns[1]) == Lower(LogPatterns[1]);
  }

  /** Every phrase begins with a character that is not whitespace. */
  lemma PatternsNotBlank(k: nat)
    requires k < |StreamPatterns|
    ensures |Lower(StreamPatterns[k])| > 0 && !IsSpace(Lower(StreamPatterns[k])[0])
  {
  }

  /** The stream filter and the log filter agree on every text: the blank-text
      guard of `_should_filter` never matters, because no phrase can occur in
      blank text. */
  lemma FiltersAgree(text: string)
    ensures ShouldFilter(text) == IsReolinkError(text)
  {
    PatternListsAgree();
    if IsReolinkError(text) {
      var k :| 0 <= k < |LogPatterns| && Contains(Lower(text), Lower(LogPatterns[k]));
      PatternsNotBlank(k);
      ContainsNonSpace(Lower(text), Lower(StreamPatterns[k]), 0);
      LowerKeepsSpace(text);
    }
  }

  /** Any text holding "undefined", in whatever case, is dropped. */
  lemma UndefinedIsFiltered(text: string)
    requires Contains(Lower(text), "undefined")
    ensures ShouldFilter(text)
  {
    assert Lower(StreamPatterns[8]) == "undefined";
    ContainsNonSpace(Lower(text), "undefined", 0);
    LowerKeepsSpace(text);
  }

  /** Text that `strip()` leaves empty is never dropped. */
  lemma BlankIsKept(text: string)
    ensures Strip(text) == [] ==> !ShouldFilter(text)
  {
    StripSpec(text);
  }
}
