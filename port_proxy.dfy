/** The port-proxy rule record and the parser that reads it out of the table
    `netsh interface portproxy show v4tov4` prints (`MainWindow.parse_rules`). */
module PortProxy {
  import opened Text

  /** One forwarding entry, the dictionary with keys listenPort,
      listenAddress, connectPort and connectAddress. All four values are text. */
  datatype Rule = Rule(listenPort: string, listenAddress: string, connectPort: string, connectAddress: string)

  /** The marker of the line between the table header and its rows. */
  const Separator: string := "----"

  predicate IsSeparatorLine(line: string) {
    Contains(line, Separator)
  }

  /** The index of the first data line: just after the first separator
      line, or 0 when no line is a separator. */
  function DataStart(lines: seq<string>): (start: nat)
    ensures start <= |lines|
    ensures start == 0 <==> forall k :: 0 <= k < |lines| ==> !IsSeparatorLine(lines[k])
    ensures start > 0 ==> IsSeparatorLine(lines[start - 1])
    ensures forall k :: 0 <= k < start - 1 ==> !IsSeparatorLine(lines[k])
  {
    if lines == [] then
      0
    else if IsSeparatorLine(lines[0]) then
      1
    else
      var rest := DataStart(lines[1..]);
      assert forall k :: 1 <= k < |lines| ==> lines[k] == lines[1..][k - 1];
      if rest == 0 then 0 else rest + 1
  }

  /** The connect addresses of a list of rules, in order. */
  function ConnectAddresses(rules: seq<Rule>): (addresses: seq<string>)
    ensures |addresses| == |rules|
    ensures forall k :: 0 <= k < |rules| ==> addresses[k] == rules[k].connectAddress
  {
    if rules == [] then [] else [rules[0].connectAddress] + ConnectAddresses(rules[1..])
  }

  /** The rules one data line yields, given its whitespace-separated tokens:
      one per token from the third to the last but one, each with the first
      two tokens as listen address and port, and the listen port again as
      connect port. The last token is never read. */
  function LineRules(parts: seq<string>): (rules: seq<Rule>)
    ensures |parts| < 4 ==> rules == []
    ensures |parts| >= 4 ==> ConnectAddresses(rules) == parts[2..|parts| - 1]
    ensures forall k :: 0 <= k < |rules| ==>
      rules[k].listenAddress == parts[0] && rules[k].listenPort == parts[1]
      && rules[k].connectPort == rules[k].listenPort
  {
    if |parts| < 4 then
      []
    else
      seq(|parts| - 3, k requires 0 <= k < |parts| - 3 => Rule(parts[1], parts[0], parts[1], parts[k + 2]))
  }

  /** The rules of a run of data lines: each line's rules, in line order. */
  function RulesFrom(lines: seq<string>): seq<Rule> {
    if lines == [] then [] else LineRules(Split(lines[0])) + RulesFrom(lines[1..])
  }

  /** What parse_rules returns for a list of lines. */
  function ParseLines(lines: seq<string>): seq<Rule> {
    RulesFrom(lines[DataStart(lines)..])
  }

  /** What parse_rules returns for the listing text. */
  function ParsedRules(output: string): seq<Rule> {
    ParseLines(SplitLines(output))
  }

  /** The first loop of parse_rules: the index after the first line that
      contains the separator, or 0. */
  method FindDataStart(lines: seq<string>) returns (start: nat)
    ensures start == DataStart(lines)
  {
    start := 0;
    var i := 0;
    while i < |lines|
      invariant 0 <= i <= |lines|
      invariant forall k :: 0 <= k < i ==> !IsSeparatorLine(lines[k])
    {
      if IsSeparatorLine(lines[i]) {
        start := i + 1;
        break;
      }
      i := i + 1;
    }
  }

  /** The inner loop of parse_rules: append one rule per token from the
      third to the last but one. */
  method AppendLineRules(rules: seq<Rule>, parts: seq<string>) returns (out: seq<Rule>)
    ensures out == rules + LineRules(parts)
  {
    out := rules;
    if |parts| >= 4 {
      var listenAddress := parts[0];
      var listenPort := parts[1];
      ghost var spec := LineRules(parts);
      assert |spec| == |parts| - 3;
      var t := 2;
      while t < |parts| - 1
        invariant 2 <= t <= |parts| - 1
        invariant out == rules + spec[..t - 2]
      {
        assert spec[t - 2] == Rule(listenPort, listenAddress, listenPort, parts[t]);
        assert spec[..t - 1] == spec[..t - 2] + [spec[t - 2]];
        out := out + [Rule(listenPort, listenAddress, listenPort, parts[t])];
        t := t + 1;
      }
      assert spec[..t - 2] == spec;
    }
  }

  /** `MainWindow.parse_rules`: find the first separator line, then append
      the rules of every later line. */
  method ParseRules(output: string) returns (rules: seq<Rule>)
    ensures rules == ParsedRules(output)
  {
    var lines := SplitLines(output);
    var start := FindDataStart(lines);
    var data := lines[start..];
    rules := [];
    var j := 0;
    while j < |data|
      invariant j <= |data|
      invariant rules == RulesFrom(data[..j])
    {
      rules := AppendLineRules(rules, Split(data[j]));
      RulesFromPrefix(data, j);
      j := j + 1;
    }
    assert data[..j] == data;
  }

  // ------------------------------------------------------------- lemmas

  /** The rules of two runs of lines are the rules of the first followed by
      those of the second. */
  lemma {:induction false} RulesFromAppend(a: seq<string>, b: seq<string>)
    ensures RulesFrom(a + b) == RulesFrom(a) + RulesFrom(b)
  {
    if a == [] {
      assert a + b == b;
    } else {
      assert (a + b)[0] == a[0];
      assert (a + b)[1..] == a[1..] + b;
      RulesFromAppend(a[1..], b);
    }
  }

  /** Reading one more line appends that line's rules. */
  lemma RulesFromSnoc(lines: seq<string>, line: string)
    ensures RulesFrom(lines + [line]) == RulesFrom(lines) + LineRules(Split(line))
  {
    RulesFromAppend(lines, [line]);
    assert RulesFrom([line]) == LineRules(Split(line)) + RulesFrom([]);
  }

  /** Reading the lines of `data` one at a time: one more line appends that
      line's rules. */
  lemma RulesFromPrefix(data: seq<string>, j: nat)
    requires j < |data|
    ensures RulesFrom(data[..j + 1]) == RulesFrom(data[..j]) + LineRules(Split(data[j]))
  {
    assert data[..j + 1] == data[..j] + [data[j]];
    RulesFromSnoc(data[..j], data[j]);
  }

  /** The number of rules one line yields. */
  function LineRuleCount(line: string): nat {
    var n := |Split(line)|;
    if n >= 4 then n - 3 else 0
  }

  /** The sum of LineRuleCount over a run of lines. */
  function TotalRuleCount(lines: seq<string>): nat {
    if lines == [] then 0 else LineRuleCount(lines[0]) + TotalRuleCount(lines[1..])
  }

  /** A run of lines yields as many rules as its lines do together. */
  lemma {:induction false} RulesFromCount(lines: seq<string>)
    ensures |RulesFrom(lines)| == TotalRuleCount(lines)
  {
    if lines != [] {
      RulesFromCount(lines[1..]);
    }
  }

  /** The lines before the first separator line and the separator line
      itself yield no rules; everything after it is read. */
  lemma ParseAfterSeparator(header: seq<string>, separator: string, body: seq<string>)
    requires forall k :: 0 <= k < |header| ==> !IsSeparatorLine(header[k])
    requires IsSeparatorLine(separator)
    ensures ParseLines(header + [separator] + body) == RulesFrom(body)
  {
    var lines := header + [separator] + body;
    assert lines[|header|] == separator;
    assert forall k :: 0 <= k < |header| ==> lines[k] == header[k];
    assert DataStart(lines) == |header| + 1;
    assert lines[|header| + 1..] == body;
  }

  /** Without a separator line every line is read. */
  lemma ParseWithoutSeparator(lines: seq<string>)
    requires forall k :: 0 <= k < |lines| ==> !IsSeparatorLine(lines[k])
    ensures ParseLines(lines) == RulesFrom(lines)
  {
    assert lines[0..] == lines;
  }

  /** A rule came from the tokens `parts` of a line: the first two tokens
      are its listen side, its connect address is one of the tokens between
      the second and the last, and its connect port is its listen port. */
  predicate FromTokens(rule: Rule, parts: seq<string>) {
    |parts| >= 4 && rule.listenAddress == parts[0] && rule.listenPort == parts[1]
    && rule.connectPort == parts[1] && rule.connectAddress in parts[2..|parts| - 1]
  }

  /** Every rule of a run of lines came from one of its lines. */
  lemma {:induction false} RulesFromOrigin(lines: seq<string>, k: nat)
    requires k < |RulesFrom(lines)|
    ensures exists j :: 0 <= j < |lines| && FromTokens(RulesFrom(lines)[k], Split(lines[j]))
  {
    var head := LineRules(Split(lines[0]));
    if k < |head| {
      var parts := Split(lines[0]);
      assert ConnectAddresses(head)[k] == parts[2..|parts| - 1][k];
      assert FromTokens(RulesFrom(lines)[k], Split(lines[0]));
    } else {
      RulesFromOrigin(lines[1..], k - |head|);
      var j :| 0 <= j < |lines[1..]| && FromTokens(RulesFrom(lines[1..])[k - |head|], Split(lines[1..][j]));
      assert FromTokens(RulesFrom(lines)[k], Split(lines[j + 1]));
    }
  }

  /** Every parsed rule came from a line after the first separator line, and
      its connect port is its listen port. */
  lemma ParsedRuleOrigin(lines: seq<string>, k: nat)
    requires k < |ParseLines(lines)|
    ensures ParseLines(lines)[k].connectPort == ParseLines(lines)[k].listenPort
    ensures exists j :: DataStart(lines) <= j < |lines| && FromTokens(ParseLines(lines)[k], Split(lines[j]))
  {
    RulesFromOriginAfter(lines, DataStart(lines), k);
  }

  /** RulesFromOrigin for the lines from index `start` on. */
  lemma RulesFromOriginAfter(lines: seq<string>, start: nat, k: nat)
    requires start <= |lines| && k < |RulesFrom(lines[start..])|
    ensures exists j :: start <= j < |lines| && FromTokens(RulesFrom(lines[start..])[k], Split(lines[j]))
  {
    var data := lines[start..];
    RulesFromOrigin(data, k);
    var j :| 0 <= j < |data| && FromTokens(RulesFrom(data)[k], Split(data[j]));
    assert data[j] == lines[start + j];
  }

  /** Empty output yields no rules. */
  lemma ParseEmpty()
    ensures ParsedRules("") == []
  {
  }

  /** A table made only of header lines and the separator yields no rules. */
  lemma ParseHeaderOnly(header: seq<string>, separator: string)
    requires forall k :: 0 <= k < |header| ==> !IsSeparatorLine(header[k])
    requires IsSeparatorLine(separator)
    ensures ParseLines(header + [separator]) == []
  {
    ParseAfterSeparator(header, separator, []);
    assert header + [separator] + [] == header + [separator];
  }

  /** A line of exactly four tokens yields one rule: the third token is the
      connect address, and the fourth is ignored. */
  lemma FourTokenRule(a: string, b: string, c: string, d: string)
    ensures LineRules([a, b, c, d]) == [Rule(b, a, b, c)]
  {
    var r := LineRules([a, b, c, d]);
    assert |r| == 1 && r[0] == Rule(b, a, b, c);
  }

  /** The row `0.0.0.0 8080 172.29.223.44 1996`, written in pieces. */
  const ExampleLine: string := "0.0.0.0" + " " + ("8080" + " " + ("172.29.223.44" + " " + "1996"))

  /** The row `0.0.0.0 8080 172.29.223.44 1996` yields one rule whose connect
      port is the listen port 8080, not 1996. */
  lemma ExampleRow()
    ensures LineRules(Split(ExampleLine)) == [Rule("8080", "0.0.0.0", "8080", "172.29.223.44")]
  {
    SplitColumns("0.0.0.0", " ", "8080", " ", "172.29.223.44", " ", "1996");
    FourTokenRule("0.0.0.0", "8080", "172.29.223.44", "1996");
  }
}
