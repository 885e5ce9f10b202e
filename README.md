# WSL2 port-forwarding manager: a Dafny model of its rule logic

WSL2PortManager is a small desktop tool for Windows. It lists, adds and
deletes the IPv4-to-IPv4 port-proxy rules of `netsh interface portproxy`; these
forward a Windows port to a WSL2 address. Everything it does lives in `main.py`.
This project models the parts of that file that are logic rather than user
interface, and proves what they do:

- **`PortProxy`** (`port_proxy.dfy`): the rule record and `MainWindow.parse_rules`.
  - It finds the first line that contains `----` and reads every later line.
  - A line of `n >= 4` whitespace-separated tokens yields one rule for each
    token from the third to the last but one.
  - Each rule takes the first two tokens as listen address and listen port.
    It copies the listen port into the connect port.
  - The parser is imperative, as in the source: a loop with `break`, then
    nested loops that append. Each loop is proved equal to a recursive
    specification. The lemmas cover counts, origin and order.
- **`ListingExample`** (`listing_example.dfy`): a complete English listing of
  `show v4tov4`, with CRLF line ends, run through that parser.
- **`AddDialog`** (`add_dialog.dfy`): two parts of `AddRuleDialog`.
  - `get_data`: strip the four fields, then accept only digit ports and
    non-empty addresses.
  - The first-address logic of `get_wsl_ip`.
- **`Netsh`** (`netsh.dfy`): the argument lists of the show, add and delete
  commands. `ReadAdd` and `ReadDelete` decode the fixed `key=value` form that
  `AddCommand` and `DeleteCommand` build, and both directions of each round
  trip are proved.
- **`Window`** (`window.dfy`): the `MainWindow` class and its control flow.
  - It holds the table rows, the error label and a trace of events.
  - It covers the initial load, `load_rules`, `add_rule`, `delete_rule` with
    its confirmation, and `AddRuleDialog.accept`.
  - Every method is proved equal to a function over a `Screen` value. The
    lemmas show that every started action ends with a reload, and that a
    declined delete changes nothing.
- **`Text`** (`text.dfy`): the Python string primitives the code relies on.
  These are `str.strip`, `str.split()`, `str.splitlines`, `str.isdigit`
  (ASCII digits) and the substring test `in`.
  - `str.split()` and `str.strip()` use the whitespace set of
    `str.isspace`.
  - `str.splitlines` uses its line-break set, with `\r\n` counted as one
    break.
- **`Wrappers`** (`wrappers.dfy`): `Option`.

The subprocess runs and their decoding are inputs to the model.
- An action's command is an `Outcome`: an exit code with already-decoded
  stdout and stderr, or the text of an exception.
- Each reload is a `Listing`: the decoded table text, or the text of the
  error caught.

The model follows `main.py` as written. What it does not do (no firewall
commands, no regular-expression match of table rows, no use of the fourth
column) is listed under "Left out".

## Model

| member | source | states |
|---|---|---|
| Text.Strip | main.py:95-98 | `str.strip()`: empty exactly when the text is all whitespace; otherwise a contiguous slice that starts right after the leading whitespace, does not start or end with whitespace, and is followed only by whitespace |
| Text.StripIdempotent | main.py:95-98 | stripping twice is stripping once |
| Text.StripPadded | main.py:95-98 | whitespace put around an already stripped text is exactly what `strip()` removes |
| Text.Split | main.py:207 | `str.split()`: every token is non-empty and free of whitespace; there are no tokens exactly when the text is all whitespace |
| Text.SplitUnwords | main.py:207 | splitting non-empty, whitespace-free words joined by blanks gives the words back |
| Text.SplitStrip | main.py:81-85 | `strip().split()` gives the same tokens as `split()` |
| Text.SplitLines | main.py:196 | `str.splitlines()`: no line holds a line break; the text is empty exactly when there are no lines |
| Text.SplitLinesJoinCrLf | main.py:196 | lines ended by `\r\n`, as netsh prints them, split back into the same lines |
| Text.Contains | main.py:201 | `"----" in line`: a match needs the pattern to fit in the line, and a line that starts with the pattern contains it |
| Text.IsDigits | main.py:100 | `str.isdigit()` on ASCII digits: a digit string is non-empty and holds no whitespace and no line boundary |
| Text.ContainsOccurs | main.py:201 | `"----" in line` holds exactly when the pattern occurs at some index of the line |
| PortProxy.DataStart | main.py:198-203 | data starts just after the first line containing `----`: that line is a separator and no earlier one is; data starts at 0 exactly when no line is a separator |
| PortProxy.FindDataStart | main.py:198-203 | the `enumerate` loop with `break` computes DataStart |
| PortProxy.LineRules | main.py:207-219 | a line with fewer than 4 tokens yields nothing; otherwise the connect addresses are `parts[2..n-2]` in order; every rule has `parts[0]` as listen address, `parts[1]` as listen port, and the listen port as connect port |
| PortProxy.AppendLineRules | main.py:208-219 | the inner `range(2, len(parts) - 1)` loop appends exactly LineRules(parts) to the list |
| PortProxy.ParseRules | main.py:193-223 | `parse_rules` returns the rules of the lines after the first separator line, line by line, in order |
| PortProxy.RulesFromAppend | main.py:206-219 | the rules of two runs of lines are the first run's rules followed by the second's: no reordering, no deduplication |
| PortProxy.RulesFromCount | main.py:206-219 | the number of rules is the sum over lines of `n - 3` for lines of `n >= 4` tokens, and 0 for the others |
| PortProxy.ParseAfterSeparator | main.py:199-206 | lines before and including the first separator line yield nothing; everything after it is read |
| PortProxy.ParseWithoutSeparator | main.py:198-206 | without a separator line every line is read, from line 0 |
| PortProxy.RulesFromOrigin | main.py:206-219 | every rule of a run of lines comes from the tokens of one of its lines |
| PortProxy.ParsedRuleOrigin | main.py:193-223 | every parsed rule comes from a line after the separator, and its connect port equals its listen port |
| PortProxy.ParseEmpty | main.py:196-223 | empty output yields no rules |
| PortProxy.ParseHeaderOnly | main.py:199-219 | a header plus separator, with no rows, yields no rules |
| PortProxy.FourTokenRule | main.py:208-219 | a line of exactly four tokens yields one rule, with the third token as connect address and the fourth ignored |
| PortProxy.ExampleRow | main.py:209-219 | `0.0.0.0 8080 172.29.223.44 1996` yields exactly one rule, listen 0.0.0.0:8080, connect 172.29.223.44:8080; the 1996 column is unused |
| ListingExample.ExampleListing | main.py:193-223 | a full netsh listing with a title, blank lines, a header, a dashes line and two rows yields the two rules, in row order |
| ListingExample.TwoRowListing | main.py:196-219 | any title/header/separator/two-row listing yields the rules of its two rows |
| AddDialog.GetData | main.py:93-112 | a record is returned exactly when both stripped ports are digit strings and both stripped addresses are non-empty; its fields are the stripped inputs, so it is itself a valid draft |
| AddDialog.GetDataValid | main.py:93-112 | the dialog returns a draft unchanged exactly when that draft is valid |
| AddDialog.GetDataRejectsLetters | main.py:100-104 | a non-digit port such as `abc` is refused |
| AddDialog.GetDataRejectsBlankPort | main.py:100-104 | a blank or whitespace-only port is refused |
| AddDialog.GetDataStripsPadding | main.py:95-112 | whitespace typed around the fields of a valid draft is dropped, and the draft is accepted as it is |
| AddDialog.WslIpSuggestion | main.py:71-91 | nothing when the command fails or prints only whitespace; otherwise a non-empty, whitespace-free address: the first token `split()` finds in the raw output, whether or not it is stripped first |
| Netsh.ShowCommand | main.py:164 | the listing command uses the same `netsh interface portproxy ... v4tov4` words as the add and delete commands, with the verb `show` |
| Netsh.ShowChangesNothing | main.py:164 | the show command decodes as neither an add nor a delete command |
| Netsh.AddCommand | main.py:252-257 | the add command has 9 arguments starting with `netsh interface portproxy add v4tov4` |
| Netsh.DeleteCommand | main.py:309-312 | the delete command has 7 arguments starting with `netsh interface portproxy delete v4tov4` |
| Netsh.ValueOfKeyValue | main.py:254-257 | a `key=value` argument gives back its value, whatever the value holds |
| Netsh.ValueOfExact | main.py:254-257 | an argument that gives a key a value is exactly `key=` followed by that value |
| Netsh.ReadAddCommand | main.py:252-257 | reading the add command back gives the rule it was built from |
| Netsh.ReadAddExact | main.py:252-257 | every add argument list that reads as a rule is the one built from that rule |
| Netsh.ReadDeleteCommand | main.py:309-312 | reading the delete command back gives its listen port and address |
| Netsh.ReadDeleteExact | main.py:309-312 | every delete argument list that reads back is the one built from what it reads |
| Netsh.DeleteMatchesAdd | main.py:252-257 | deleting a rule names its listen side with the same arguments as the add command of that rule |
| Window.MainWindow.constructor | main.py:123-149 | a new window starts empty and then loads the rules |
| Window.MainWindow.ClearError | main.py:352-353 | empties the error label and changes nothing else |
| Window.MainWindow.ShowError | main.py:343-350 | puts the message on the label and records it |
| Window.MainWindow.LoadRules | main.py:158-192 | clears the label, runs the show command, then displays the parsed rules or shows the error |
| Window.MainWindow.RunCommand | main.py:245-290 | clears the label, starts the command, shows an error for a nonzero exit or an exception, otherwise logs success, and reloads in every case |
| Window.MainWindow.AddRule | main.py:245-290 | `add_rule` is that flow, with the add command for the rule |
| Window.MainWindow.DeleteRule | main.py:292-341 | reads the listen side from the row; when declined nothing changes; when confirmed it runs the delete flow for that listen side |
| Window.MainWindow.SubmitAddDialog | main.py:114-120 | a valid form adds the stripped rule and closes the dialog; an invalid one leaves the window as it was |
| Window.LoadResult | main.py:158-192 | a load records the show command and then its result; a successful listing shows the parsed rules with an empty label; a failed one keeps the old rows and shows a non-empty error |
| Window.LoadTwice | main.py:158-192 | reloading from the same listing shows the same rows and label |
| Window.RunEndsWithReload | main.py:245-290 | whatever the command's outcome, the trace is the command, its outcome, the show command and the listing's result, and the final rows and label are those of a plain load |
| Window.AddAlwaysReloads | main.py:252-289 | adding issues exactly the add command for the rule and ends with a reload |
| Window.AddFailureShowsError | main.py:270-287 | a nonzero exit shows stderr as an error, an exception shows its text, and neither logs a success |
| Window.AddSuccessLogs | main.py:278-282 | a zero exit logs stdout; after a good listing the label is empty |
| Window.DeleteDeclined | main.py:298-304 | declining the confirmation issues no command and no reload, and changes nothing |
| Window.DeleteConfirmedTargetsRow | main.py:292-340 | a confirmed delete issues a delete command that reads back as the chosen row's listen port and address, carries the same key/value pairs as that rule's add command, and ends with a reload |
| Window.DeleteFailureShowsError | main.py:323-338 | a nonzero exit or an exception of the delete shows an error and logs no success |
| Window.AddFailureWiped | main.py:270-289 | as written: an add failure is shown, but after a successful reload the label is empty |
| Window.DeleteFailureWiped | main.py:323-340 | as written: a delete failure is shown, but after a successful reload the label is empty |
| Window.RunKeepingErrorShowsFailure | main.py:270-289 | with the reload clearing the label only after a successful command, a failure's message stays on the label; rows and trace are unchanged, and a success behaves exactly as written |
| Window.RunKeepingErrorReportsListing | main.py:186-191 | with that reload, a failed listing still replaces the label with its own error, and the corrected and written flows then end in the same state |

## Left out

- The Qt user interface is not modelled: widgets, layouts, the style delegate, the stylesheet, window titles and icons. In `display_rules` (main.py:225-243) only the effect of showing a list of rules is kept, as the table rows.
- The warning dialogs of `get_data` and `get_wsl_ip` are not modelled. The question box of `delete_rule` is a `confirmed` parameter.
- Running processes (`subprocess.Popen`, `check_output`, `QProcess`) is input to the model. A command's result is an `Outcome` and a listing's result is a `Listing`, both already decoded.
- Encoding detection is left out. This covers `chardet.detect` and the choice between the detected encoding and UTF-8 at confidence 0.7 (main.py:170-181, 265-281, 319-333), which is a foreign library with floating-point confidence. A strict decode that fails appears as a `Raised` outcome or a `ListFailed` listing.
- Window.LoadResult: a failed listing showing a non-empty error holds only for the `except Exception` path (main.py:189-191). In the `CalledProcessError` handler (main.py:186-188) `encoding` is always unbound, because it is assigned only after `check_output` returns (main.py:163-171). That handler therefore always raises `UnboundLocalError` at main.py:187, before `show_error` runs. The label stays empty (cleared at main.py:160), and the exception escapes `load_rules`: out of `__init__` (main.py:149) and out of the `finally` of `add_rule` and `delete_rule` (main.py:289, 340). The model, `Window.MainWindow.LoadRules` included, treats that path like the other failure: a `ListFailed` listing that shows `加载规则失败：` and the message. An escaping exception is not modelled.
- Logging is not modelled, except that the success log of `add_rule` and `delete_rule` (`logger.info` at main.py:282, 334) is kept as a `SuccessLogged` event. The traceback that `show_error` appends to the label text is not modelled either; the label holds only the message.
- Window.MainWindow.constructor: the label's initial text comes from the generated UI file, which is not part of this model; the model starts with an empty label and no rows.
- Text.IsDigit: `str.isdigit` also accepts non-ASCII digits (for example Arabic-Indic digits and superscripts). The model accepts `0`-`9` only.
- Text.IsSpace: Python decides `isspace` from Unicode properties; the model uses a fixed list of those characters.
- `main.py` runs no firewall commands, and it matches table rows with no regular expression: `re` is imported at main.py:3 and never used. The fourth column of a row is never read, and every rule's connect port is its listen port (main.py:207-219).
- AddDialog.WslIpSuggestion takes already-decoded text. `get_wsl_ip` decodes the output of `wsl hostname -I` strictly with `.decode()` (main.py:77, 81), so a byte that is not UTF-8 raises out of `AddRuleDialog.__init__` (called at main.py:49) and the dialog never opens. That failure is not modelled.
- `show_add_dialog` (main.py:151-156) only opens the dialog and connects its signal. `SubmitAddDialog` models what happens when the form is submitted.

## Findings

| source | as written | input that shows it | evidently intended | confidence | as-written member | corrected member |
|---|---|---|---|---|---|---|
| main.py:275-289 | `add_rule` shows the failure with `show_error` and returns, but the `finally` clause calls `load_rules`, which starts with `clear_error` | the add command exits with code 1 and stderr "The requested operation requires elevation", and the following listing succeeds: the label ends empty | the failure message stays on the label after the reload | not executed | Window.AddFailureWiped | Window.RunKeepingErrorShowsFailure |
| main.py:328-340 | `delete_rule` has the same shape: `show_error`, `return`, then `load_rules` in `finally` clears the label | the delete command exits with code 1 and the following listing succeeds: the label ends empty | the failure message stays on the label after the reload | not executed | Window.DeleteFailureWiped | Window.RunKeepingErrorShowsFailure |

The `MainWindow` class and `Run` keep the flow as written, because they model `main.py`. `Window.RunKeepingError` is the corrected flow: the reload in `finally` clears the label only after a successful command. Its lemmas show that after a successful listing it differs from the written flow only in the label text, and that after a failed listing the two flows end in the same state.
