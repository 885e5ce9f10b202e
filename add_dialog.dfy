/** The logic of `AddRuleDialog`: the validation in `get_data` and the
    address suggestion of `get_wsl_ip`. */
module AddDialog {
  import opened Wrappers
  import opened Text
  import opened PortProxy

  /** What the dialog accepts: both ports are digit strings, both addresses
      are non-empty, and no field has whitespace around it. */
  predicate ValidDraft(d: Rule) {
    IsDigits(d.listenPort) && IsDigits(d.connectPort)
    && d.listenAddress != [] && d.connectAddress != []
    && Strip(d.listenPort) == d.listenPort && Strip(d.listenAddress) == d.listenAddress
    && Strip(d.connectPort) == d.connectPort && Strip(d.connectAddress) == d.connectAddress
  }

  /** `AddRuleDialog.get_data`: strip the four fields; accept only when both
      ports are digit strings and both addresses are non-empty. */
  function GetData(listenPort: string, listenAddress: string, connectPort: string, connectAddress: string): (r: Option<Rule>)
    ensures r.Some? <==> IsDigits(Strip(listenPort)) && IsDigits(Strip(connectPort))
                         && Strip(listenAddress) != [] && Strip(connectAddress) != []
    ensures r.Some? ==> ValidDraft(r.value)
    ensures r.Some? ==> r.value == Rule(Strip(listenPort), Strip(listenAddress), Strip(connectPort), Strip(connectAddress))
  {
    var lp, la, cp, ca := Strip(listenPort), Strip(listenAddress), Strip(connectPort), Strip(connectAddress);
    StripIdempotent(listenPort);
    StripIdempotent(listenAddress);
    StripIdempotent(connectPort);
    StripIdempotent(connectAddress);
    if IsDigits(lp) && IsDigits(cp) && la != [] && ca != [] then Some(Rule(lp, la, cp, ca)) else None
  }

  /** Feeding an accepted draft back into the dialog accepts it unchanged,
      and the dialog accepts exactly the valid drafts. */
  lemma {:induction false} GetDataValid(d: Rule)
    ensures GetData(d.listenPort, d.listenAddress, d.connectPort, d.connectAddress) == Some(d) <==> ValidDraft(d)
  {
  }

  /** A port that is not a digit string is refused. */
  lemma GetDataRejectsLetters(listenAddress: string, connectPort: string, connectAddress: string)
    ensures GetData("abc", listenAddress, connectPort, connectAddress) == None
  {
    assert !IsDigit('a');
    assert LeadingSpaces("abc") == 0;
    assert Strip("abc")[0] == 'a';
  }

  /** A blank port is refused: `"".isdigit()` is false. */
  lemma GetDataRejectsBlankPort(listenPort: string, listenAddress: string, connectPort: string, connectAddress: string)
    requires AllSpace(listenPort)
    ensures GetData(listenPort, listenAddress, connectPort, connectAddress) == None
  {
  }

  /** Whitespace typed around the fields of a valid draft is dropped, and
      the draft is accepted as it is. */
  lemma GetDataStripsPadding(d: Rule, pre: string, post: string)
    requires ValidDraft(d) && AllSpace(pre) && AllSpace(post)
    ensures GetData(pre + d.listenPort + post, pre + d.listenAddress + post,
                    pre + d.connectPort + post, pre + d.connectAddress + post) == Some(d)
  {
    StripPadded(pre, d.listenPort, post);
    StripPadded(pre, d.listenAddress, post);
    StripPadded(pre, d.connectPort, post);
    StripPadded(pre, d.connectAddress, post);
  }

  /** `AddRuleDialog.get_wsl_ip`: nothing when `wsl hostname -I` fails or
      prints only whitespace; otherwise the first address it prints, which is
      the first token `split()` finds in the raw output. */
  function WslIpSuggestion(exitCode: int, output: string): (r: Option<string>)
    ensures exitCode != 0 ==> r == None
    ensures exitCode == 0 ==> (r == None <==> AllSpace(output))
    ensures r.Some? ==> r.value != [] && NoSpace(r.value)
    ensures r.Some? ==> Split(output) != [] && r.value == Split(output)[0]
  {
    if exitCode != 0 then
      None
    else
      var ip := Strip(output);
      if ip == [] then
        None
      else
        SplitStrip(output);
        Some(Split(ip)[0])
  }
}
