/** The argument lists handed to `netsh interface portproxy`, and decoders
    for the fixed `key=value` form the add and delete lists are built in. */
module Netsh {
  import opened Wrappers
  import opened PortProxy

  const AddPrefix: seq<string> := ["netsh", "interface", "portproxy", "add", "v4tov4"]
  const DeletePrefix: seq<string> := ["netsh", "interface", "portproxy", "delete", "v4tov4"]

  /** The `key=value` argument. */
  function KeyValue(key: string, value: string): string {
    key + "=" + value
  }

  /** The value an argument gives `key`, when it has the form `key=value`. */
  function ValueOf(arg: string, key: string): Option<string> {
    if |key| < |arg| && arg[..|key| + 1] == key + "=" then Some(arg[|key| + 1..]) else None
  }

  /** The argument list `load_rules` runs: the same `netsh interface
      portproxy ... v4tov4` words as the add and delete commands, with the
      verb `show` and no `key=value` argument. */
  function ShowCommand(): (args: seq<string>)
    ensures |args| == 5 && args[..3] == AddPrefix[..3] == DeletePrefix[..3]
    ensures args[3] == "show" && args[4] == AddPrefix[4] == DeletePrefix[4]
  {
    ["netsh", "interface", "portproxy", "show", "v4tov4"]
  }

  /** The argument list `add_rule` runs. */
  function AddCommand(rule: Rule): (args: seq<string>)
    ensures |args| == 9 && args[..5] == AddPrefix
  {
    AddPrefix + [KeyValue("listenport", rule.listenPort), KeyValue("listenaddress", rule.listenAddress),
                 KeyValue("connectport", rule.connectPort), KeyValue("connectaddress", rule.connectAddress)]
  }

  /** The argument list `delete_rule` runs: the listen side only. */
  function DeleteCommand(listenPort: string, listenAddress: string): (args: seq<string>)
    ensures |args| == 7 && args[..5] == DeletePrefix
  {
    DeletePrefix + [KeyValue("listenport", listenPort), KeyValue("listenaddress", listenAddress)]
  }

  /** Decodes the fixed form `AddCommand` builds: the five fixed words, then
      the four keys in that order. */
  function ReadAdd(args: seq<string>): Option<Rule> {
    if |args| == 9 && args[..5] == AddPrefix then
      match (ValueOf(args[5], "listenport"), ValueOf(args[6], "listenaddress"),
             ValueOf(args[7], "connectport"), ValueOf(args[8], "connectaddress"))
      case (Some(lp), Some(la), Some(cp), Some(ca)) => Some(Rule(lp, la, cp, ca))
      case _ => None
    else
      None
  }

  /** Decodes the fixed form `DeleteCommand` builds: the five fixed words,
      then the listen port and the listen address. */
  function ReadDelete(args: seq<string>): Option<(string, string)> {
    if |args| == 7 && args[..5] == DeletePrefix then
      match (ValueOf(args[5], "listenport"), ValueOf(args[6], "listenaddress"))
      case (Some(lp), Some(la)) => Some((lp, la))
      case _ => None
    else
      None
  }

  /** A `key=value` argument gives back its value. */
  lemma ValueOfKeyValue(key: string, value: string)
    ensures ValueOf(KeyValue(key, value), key) == Some(value)
  {
    var arg := KeyValue(key, value);
    assert arg[..|key| + 1] == key + "=";
    assert arg[|key| + 1..] == value;
  }

  /** An argument that gives `key` a value is `key=` followed by it. */
  lemma ValueOfExact(arg: string, key: string)
    requires ValueOf(arg, key).Some?
    ensures KeyValue(key, ValueOf(arg, key).value) == arg
  {
    assert arg == arg[..|key| + 1] + arg[|key| + 1..];
  }

  /** ReadAdd decodes every field of the rule the add command was built
      from, values with `=` or blanks included. */
  lemma ReadAddCommand(rule: Rule)
    ensures ReadAdd(AddCommand(rule)) == Some(rule)
  {
    ValueOfKeyValue("listenport", rule.listenPort);
    ValueOfKeyValue("listenaddress", rule.listenAddress);
    ValueOfKeyValue("connectport", rule.connectPort);
    ValueOfKeyValue("connectaddress", rule.connectAddress);
  }

  /** Every argument list ReadAdd decodes is the add command of the rule it
      decodes to. */
  lemma ReadAddExact(args: seq<string>)
    requires ReadAdd(args).Some?
    ensures AddCommand(ReadAdd(args).value) == args
  {
    ValueOfExact(args[5], "listenport");
    ValueOfExact(args[6], "listenaddress");
    ValueOfExact(args[7], "connectport");
    ValueOfExact(args[8], "connectaddress");
    assert args == args[..5] + args[5..];
  }

  /** ReadDelete decodes the listen side the delete command was built from. */
  lemma ReadDeleteCommand(listenPort: string, listenAddress: string)
    ensures ReadDelete(DeleteCommand(listenPort, listenAddress)) == Some((listenPort, listenAddress))
  {
    ValueOfKeyValue("listenport", listenPort);
    ValueOfKeyValue("listenaddress", listenAddress);
  }

  /** Every argument list ReadDelete decodes is the delete command of the
      listen side it decodes to. */
  lemma ReadDeleteExact(args: seq<string>)
    requires ReadDelete(args).Some?
    ensures DeleteCommand(ReadDelete(args).value.0, ReadDelete(args).value.1) == args
  {
    ValueOfExact(args[5], "listenport");
    ValueOfExact(args[6], "listenaddress");
    assert args == args[..5] + args[5..];
  }

  /** Deleting a rule names the same listen side, in the same words, as the
      command that added it. */
  lemma DeleteMatchesAdd(rule: Rule)
    ensures DeleteCommand(rule.listenPort, rule.listenAddress)[5..] == AddCommand(rule)[5..7]
  {
  }

  /** The show command decodes as neither an add nor a delete command. */
  lemma ShowChangesNothing()
    ensures ReadAdd(ShowCommand()) == None && ReadDelete(ShowCommand()) == None
  {
  }
}
