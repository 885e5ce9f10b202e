/** The control flow of `MainWindow`: loading the rule table, and the add
    and delete actions, each of which runs one netsh command and then
    reloads the table in a `finally` clause.

    The subprocess and the text decoding are inputs here: an action's
    command is described by an `Outcome` (already decoded), and every reload
    by a `Listing`. What the window does is recorded as a trace of events
    beside its visible state (the table rows and the error label). */
module Window {
  import opened Wrappers
  import opened PortProxy
  import opened Netsh
  import opened AddDialog

  /** How `subprocess.Popen(...).communicate()` and the decoding after it
      ended: the process exited with a code and decoded output, or something
      raised (the program was not found, a strict decode failed, ...). */
  datatype Outcome = Exited(code: int, stdout: string, stderr: string) | Raised(message: string)

  /** How `check_output` of the show command and its decoding ended: the
      decoded table text, or the text of the error caught. */
  datatype Listing = Listed(output: string) | ListFailed(message: string)

  /** What the window does, in order: a command it tries to start, an error
      it puts on the label, a success it logs, the rules it puts in the
      table. */
  datatype Event = Issued(args: seq<string>) | ErrorShown(message: string)
                 | SuccessLogged(output: string) | Displayed(rules: seq<Rule>)

  /** The window as a value: the rows of the table, the error label, and
      the trace so far. */
  datatype Screen = Screen(table: seq<Rule>, errorText: string, events: seq<Event>)

  const LoadFailed: string := "加载规则失败："
  const AddFailed: string := "添加规则失败："
  const DeleteFailed: string := "删除规则失败："

  // ------------------------------------------------ the flows, as values

  /** `clear_error`. */
  function Cleared(s: Screen): Screen {
    s.(errorText := "")
  }

  /** `show_error` (the traceback appended to the label is not modelled). */
  function WithError(s: Screen, message: string): Screen {
    s.(errorText := message, events := s.events + [ErrorShown(message)])
  }

  /** The event a reload ends with. */
  function LoadEvent(listing: Listing): Event {
    match listing
    case Listed(output) => Displayed(ParsedRules(output))
    case ListFailed(message) => ErrorShown(LoadFailed + message)
  }

  /** `load_rules` without its first step, `clear_error`: run the show
      command, then display the parsed rules or show the error. A failed
      listing leaves the table as it was. */
  function Reloaded(s: Screen, listing: Listing): Screen {
    var issued := s.(events := s.events + [Issued(ShowCommand())]);
    match listing
    case Listed(output) =>
      issued.(table := ParsedRules(output), events := issued.events + [Displayed(ParsedRules(output))])
    case ListFailed(message) =>
      WithError(issued, LoadFailed + message)
  }

  /** `load_rules`. */
  function Loaded(s: Screen, listing: Listing): Screen {
    Reloaded(Cleared(s), listing)
  }

  /** The event the body of an action's `try` ends with: an error for a
      nonzero exit (reporting stderr) or for an exception, a logged success
      (reporting stdout) otherwise. */
  function OutcomeEvent(prefix: string, outcome: Outcome): Event {
    match outcome
    case Exited(code, stdout, stderr) =>
      if code != 0 then ErrorShown(prefix + stderr) else SuccessLogged(stdout)
    case Raised(message) => ErrorShown(prefix + message)
  }

  /** The window after the body of an action's `try`. */
  function AfterOutcome(s: Screen, prefix: string, outcome: Outcome): Screen {
    var e := OutcomeEvent(prefix, outcome);
    if e.ErrorShown? then WithError(s, e.message) else s.(events := s.events + [e])
  }

  /** An action as written: clear the label, start the command, handle its
      outcome, and reload in the `finally` clause whatever happened. */
  function Run(s: Screen, args: seq<string>, prefix: string, outcome: Outcome, listing: Listing): Screen {
    var started := Cleared(s).(events := s.events + [Issued(args)]);
    Loaded(AfterOutcome(started, prefix, outcome), listing)
  }

  /** `add_rule`. */
  function Added(s: Screen, rule: Rule, outcome: Outcome, listing: Listing): Screen {
    Run(s, AddCommand(rule), AddFailed, outcome, listing)
  }

  /** `delete_rule` for the rule shown in row `row`: nothing at all when the
      user declines the confirmation. */
  function Deleted(s: Screen, row: nat, confirmed: bool, outcome: Outcome, listing: Listing): Screen
    requires row < |s.table|
  {
    if !confirmed then
      s
    else
      Run(s, DeleteCommand(s.table[row].listenPort, s.table[row].listenAddress), DeleteFailed, outcome, listing)
  }

  // ------------------------------------------------------ the window class

  /** The main window: the rows shown in its table, its error label, and the
      trace of what it has done. */
  class MainWindow {
    var table: seq<Rule>
    var errorText: string
    var events: seq<Event>

    function State(): Screen
      reads this
    {
      Screen(table, errorText, events)
    }

    /** `__init__` ends by loading the rules. */
    constructor (listing: Listing)
      ensures State() == Loaded(Screen([], "", []), listing)
    {
      table := [];
      errorText := "";
      events := [];
      new;
      LoadRules(listing);
    }

    /** `clear_error`. */
    method ClearError()
      modifies this
      ensures State() == Cleared(old(State()))
    {
      errorText := "";
    }

    /** `show_error`. */
    method ShowError(message: string)
      modifies this
      ensures State() == WithError(old(State()), message)
    {
      errorText := message;
      events := events + [ErrorShown(message)];
    }

    /** `load_rules`: clear the label, run the show command, then parse and
      display its output, or show the error. */
    method LoadRules(listing: Listing)
      modifies this
      ensures State() == Loaded(old(State()), listing)
    {
      ClearError();
      events := events + [Issued(ShowCommand())];
      match listing {
        case Listed(output) =>
          var rules := ParseRules(output);
          table := rules;
          events := events + [Displayed(rules)];
        case ListFailed(message) =>
          ShowError(LoadFailed + message);
      }
    }

    /** The shared shape of `add_rule` and of a confirmed `delete_rule`. */
    method RunCommand(args: seq<string>, prefix: string, outcome: Outcome, listing: Listing)
      modifies this
      ensures State() == Run(old(State()), args, prefix, outcome, listing)
    {
      ClearError();
      events := events + [Issued(args)];
      match outcome {
        case Exited(code, stdout, stderr) =>
          if code != 0 {
            ShowError(prefix + stderr);
          } else {
            events := events + [SuccessLogged(stdout)];
          }
        case Raised(message) =>
          ShowError(prefix + message);
      }
      LoadRules(listing);
    }

    /** `add_rule`: run the add command for `rule`, then reload. */
    method AddRule(rule: Rule, outcome: Outcome, listing: Listing)
      modifies this
      ensures State() == Added(old(State()), rule, outcome, listing)
    {
      RunCommand(AddCommand(rule), AddFailed, outcome, listing);
    }

    /** `delete_rule` for the row whose button was pressed: read the listen
      port and address from the row, ask, and only when confirmed run the
      delete command and reload. */
    method DeleteRule(row: nat, confirmed: bool, outcome: Outcome, listing: Listing)
      requires row < |table|
      modifies this
      ensures State() == Deleted(old(State()), row, confirmed, outcome, listing)
    {
      var listenPort := table[row].listenPort;
      var listenAddress := table[row].listenAddress;
      if confirmed {
        RunCommand(DeleteCommand(listenPort, listenAddress), DeleteFailed, outcome, listing);
      }
    }

    /** `AddRuleDialog.accept` with `ruleAdded` connected to `add_rule`: a
      valid form adds its rule and closes the dialog; an invalid one changes
      nothing in the window and keeps the dialog open. */
    method SubmitAddDialog(listenPort: string, listenAddress: string, connectPort: string,
                           connectAddress: string, outcome: Outcome, listing: Listing)
      returns (accepted: bool)
      modifies this
      ensures accepted <==> GetData(listenPort, listenAddress, connectPort, connectAddress).Some?
      ensures accepted ==>
        State() == Added(old(State()), GetData(listenPort, listenAddress, connectPort, connectAddress).value, outcome, listing)
      ensures !accepted ==> State() == old(State())
    {
      var data := GetData(listenPort, listenAddress, connectPort, connectAddress);
      accepted := data.Some?;
      if accepted {
        AddRule(data.value, outcome, listing);
      }
    }
  }

  // ---------------------------------------------------------------- lemmas

  /** A load runs the show command and then either displays the parsed rules
      with an empty label, or shows a non-empty error and keeps the old rows. */
  lemma LoadResult(s: Screen, listing: Listing)
    ensures Loaded(s, listing).events == s.events + [Issued(ShowCommand()), LoadEvent(listing)]
    ensures listing.Listed? ==> Loaded(s, listing).table == ParsedRules(listing.output)
    ensures listing.ListFailed? ==> Loaded(s, listing).table == s.table
    ensures Loaded(s, listing).errorText == [] <==> listing.Listed?
  {
  }

  /** Loading twice from the same listing shows what loading once shows. */
  lemma LoadTwice(s: Screen, listing: Listing)
    ensures Loaded(Loaded(s, listing), listing).table == Loaded(s, listing).table
    ensures Loaded(Loaded(s, listing), listing).errorText == Loaded(s, listing).errorText
  {
  }

  /** Every action that starts its command ends with a reload, whatever the
      outcome: the trace is the command, its outcome, the show command and
      the listing's event, and the table is what the reload shows. */
  lemma RunEndsWithReload(s: Screen, args: seq<string>, prefix: string, outcome: Outcome, listing: Listing)
    ensures Run(s, args, prefix, outcome, listing).events
         == s.events + [Issued(args), OutcomeEvent(prefix, outcome), Issued(ShowCommand()), LoadEvent(listing)]
    ensures Run(s, args, prefix, outcome, listing).table == Loaded(s, listing).table
    ensures Run(s, args, prefix, outcome, listing).errorText == Loaded(s, listing).errorText
  {
    var started := Cleared(s).(events := s.events + [Issued(args)]);
    var handled := AfterOutcome(started, prefix, outcome);
    assert handled.events == s.events + [Issued(args), OutcomeEvent(prefix, outcome)];
    assert handled.table == s.table;
    LoadResult(handled, listing);
    LoadResult(s, listing);
  }

  /** Adding issues exactly the add command for the rule and then reloads. */
  lemma AddAlwaysReloads(s: Screen, rule: Rule, outcome: Outcome, listing: Listing)
    ensures var r := Added(s, rule, outcome, listing);
      |r.events| == |s.events| + 4 && r.events[..|s.events|] == s.events
      && r.events[|s.events|] == Issued(AddCommand(rule))
      && r.events[|s.events| + 2] == Issued(ShowCommand())
      && r.events[|s.events| + 3] == LoadEvent(listing)
  {
    RunEndsWithReload(s, AddCommand(rule), AddFailed, outcome, listing);
  }

  /** A nonzero exit of the add command shows its stderr as an error and
      logs no success; an exception is shown the same way. */
  lemma AddFailureShowsError(s: Screen, rule: Rule, outcome: Outcome, listing: Listing)
    requires outcome.Raised? || outcome.code != 0
    ensures var r := Added(s, rule, outcome, listing);
      r.events[|s.events| + 1]
        == ErrorShown(AddFailed + (if outcome.Raised? then outcome.message else outcome.stderr))
      && forall k :: |s.events| <= k < |r.events| ==> !r.events[k].SuccessLogged?
  {
    RunEndsWithReload(s, AddCommand(rule), AddFailed, outcome, listing);
  }

  /** A zero exit of the add command logs its stdout and shows no error of
      its own. */
  lemma AddSuccessLogs(s: Screen, rule: Rule, stdout: string, stderr: string, listing: Listing)
    ensures var r := Added(s, rule, Exited(0, stdout, stderr), listing);
      r.events[|s.events| + 1] == SuccessLogged(stdout)
      && (listing.Listed? ==> r.errorText == [])
  {
    RunEndsWithReload(s, AddCommand(rule), AddFailed, Exited(0, stdout, stderr), listing);
    LoadResult(s, listing);
  }

  /** Declining the confirmation issues no command, no reload, and changes
      nothing. */
  lemma DeleteDeclined(s: Screen, row: nat, outcome: Outcome, listing: Listing)
    requires row < |s.table|
    ensures Deleted(s, row, false, outcome, listing) == s
  {
  }

  /** A confirmed delete issues the delete command for the listen port and
      address of the chosen row, the same key/value pairs the add command of
      that rule carries, and then reloads. */
  lemma DeleteConfirmedTargetsRow(s: Screen, row: nat, outcome: Outcome, listing: Listing)
    requires row < |s.table|
    ensures var r := Deleted(s, row, true, outcome, listing);
      var rule := s.table[row];
      |r.events| == |s.events| + 4 && r.events[..|s.events|] == s.events
      && r.events[|s.events|].Issued?
      && ReadDelete(r.events[|s.events|].args) == Some((rule.listenPort, rule.listenAddress))
      && r.events[|s.events|].args[5..] == AddCommand(rule)[5..7]
      && r.events[|s.events| + 2] == Issued(ShowCommand())
      && r.events[|s.events| + 3] == LoadEvent(listing)
  {
    var rule := s.table[row];
    RunEndsWithReload(s, DeleteCommand(rule.listenPort, rule.listenAddress), DeleteFailed, outcome, listing);
    ReadDeleteCommand(rule.listenPort, rule.listenAddress);
    DeleteMatchesAdd(rule);
  }

  /** A nonzero exit or an exception of a confirmed delete shows an error
      and logs no success. */
  lemma DeleteFailureShowsError(s: Screen, row: nat, outcome: Outcome, listing: Listing)
    requires row < |s.table|
    requires outcome.Raised? || outcome.code != 0
    ensures var r := Deleted(s, row, true, outcome, listing);
      r.events[|s.events| + 1]
        == ErrorShown(DeleteFailed + (if outcome.Raised? then outcome.message else outcome.stderr))
      && forall k :: |s.events| <= k < |r.events| ==> !r.events[k].SuccessLogged?
  {
    var rule := s.table[row];
    var args := DeleteCommand(rule.listenPort, rule.listenAddress);
    RunEndsWithReload(s, args, DeleteFailed, outcome, listing);
    var r := Deleted(s, row, true, outcome, listing);
    assert r == Run(s, args, DeleteFailed, outcome, listing);
    assert r.events[|s.events|..] == [Issued(args), OutcomeEvent(DeleteFailed, outcome), Issued(ShowCommand()), LoadEvent(listing)];
  }

  // ------------------------------------------------- the wiped error label

  /** As written, the error an add failure puts on the label is cleared by
      the reload in `finally` as soon as the listing succeeds: the label
      ends empty although an error was shown a moment earlier. */
  lemma AddFailureWiped(s: Screen, rule: Rule, outcome: Outcome, output: string)
    requires outcome.Raised? || outcome.code != 0
    ensures var r := Added(s, rule, outcome, Listed(output));
      ErrorShown(AddFailed + (if outcome.Raised? then outcome.message else outcome.stderr)) in r.events
      && r.errorText == []
  {
    AddFailureShowsError(s, rule, outcome, Listed(output));
    RunEndsWithReload(s, AddCommand(rule), AddFailed, outcome, Listed(output));
    LoadResult(s, Listed(output));
  }

  /** The same for a confirmed delete. */
  lemma DeleteFailureWiped(s: Screen, row: nat, outcome: Outcome, output: string)
    requires row < |s.table|
    requires outcome.Raised? || outcome.code != 0
    ensures var r := Deleted(s, row, true, outcome, Listed(output));
      ErrorShown(DeleteFailed + (if outcome.Raised? then outcome.message else outcome.stderr)) in r.events
      && r.errorText == []
  {
    var rule := s.table[row];
    DeleteFailureShowsError(s, row, outcome, Listed(output));
    RunEndsWithReload(s, DeleteCommand(rule.listenPort, rule.listenAddress), DeleteFailed, outcome, Listed(output));
    LoadResult(s, Listed(output));
  }

  /** An action as evidently intended: the reload in `finally` clears the
      label only when the command succeeded, so that an error shown for the
      command stays visible unless the reload reports one of its own. */
  function RunKeepingError(s: Screen, args: seq<string>, prefix: string, outcome: Outcome, listing: Listing): Screen {
    var started := Cleared(s).(events := s.events + [Issued(args)]);
    var handled := AfterOutcome(started, prefix, outcome);
    if OutcomeEvent(prefix, outcome).ErrorShown? then Reloaded(handled, listing) else Loaded(handled, listing)
  }

  /** With the intended reload a failed command's error stays on the label
      after a successful listing; the rows and the trace are those of the
      action as written, and a successful command behaves exactly as
      written. */
  lemma RunKeepingErrorShowsFailure(s: Screen, args: seq<string>, prefix: string, outcome: Outcome, output: string)
    ensures var r := RunKeepingError(s, args, prefix, outcome, Listed(output));
      var w := Run(s, args, prefix, outcome, Listed(output));
      r.table == w.table && r.events == w.events
      && (outcome.Raised? || outcome.code != 0 ==>
            r.errorText == prefix + (if outcome.Raised? then outcome.message else outcome.stderr))
      && (outcome.Exited? && outcome.code == 0 ==> r == w)
  {
    RunEndsWithReload(s, args, prefix, outcome, Listed(output));
  }

  /** With the intended reload, a failed listing still reports itself, so
      the label always names the latest failure; after a failed listing the
      corrected flow and the written one are the same. */
  lemma RunKeepingErrorReportsListing(s: Screen, args: seq<string>, prefix: string, outcome: Outcome, message: string)
    ensures RunKeepingError(s, args, prefix, outcome, ListFailed(message)).errorText == LoadFailed + message
    ensures RunKeepingError(s, args, prefix, outcome, ListFailed(message)) == Run(s, args, prefix, outcome, ListFailed(message))
  {
  }
}
