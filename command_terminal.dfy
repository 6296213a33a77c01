/**
 * The operator's command terminal: a worker reads one line at a time, and
 * the main loop polls for it and maps its first word to a command kind.
 */
module CommandTerminal {

  /** The kinds of terminal command; anything else is `Unknown`. */
  datatype TerminalCmd =
    | Add
    | Start
    | Stop
    | AddFront
    | Clear
    | RemoveNext
    | AllowAutoLand
    | DoNotAutoLand
    | Unknown

  /** The word that selects a known command kind. */
  function Keyword(c: TerminalCmd): string
    requires c != Unknown
  {
    match c
    case Add => "add"
    case Start => "start"
    case Stop => "stop"
    case AddFront => "addfront"
    case Clear => "clear"
    case RemoveNext => "removenext"
    case AllowAutoLand => "allowautoland"
    case DoNotAutoLand => "donotautoland"
  }

  /** The eight keywords. */
  const Keywords: set<string> :=
    {"add", "start", "stop", "addfront", "clear", "removenext", "allowautoland", "donotautoland"}

  /**
   * `convertToEnum`: exact, case-sensitive comparison with each keyword.
   * A known kind is returned exactly for its own keyword, `Unknown` for
   * every other string.
   */
  function ConvertToEnum(cmdType: string): (c: TerminalCmd)
    ensures c != Unknown ==> cmdType == Keyword(c)
    ensures c == Unknown <==> cmdType !in Keywords
  {
    if cmdType == "add" then Add
    else if cmdType == "start" then Start
    else if cmdType == "stop" then Stop
    else if cmdType == "addfront" then AddFront
    else if cmdType == "clear" then Clear
    else if cmdType == "removenext" then RemoveNext
    else if cmdType == "allowautoland" then AllowAutoLand
    else if cmdType == "donotautoland" then DoNotAutoLand
    else Unknown
  }

  /** Every known kind is recognised from its keyword, so the keywords are pairwise distinct. */
  lemma KeywordRoundTrip(c: TerminalCmd)
    requires c != Unknown
    ensures Keyword(c) in Keywords
    ensures ConvertToEnum(Keyword(c)) == c
  {
  }

  lemma KeywordsDistinct(c: TerminalCmd, d: TerminalCmd)
    requires c != Unknown && d != Unknown && c != d
    ensures Keyword(c) != Keyword(d)
  {
    KeywordRoundTrip(c);
    KeywordRoundTrip(d);
  }

  /** Matching is exact: other capitalisations and surrounding spaces are not recognised. */
  lemma MatchingIsExact()
    ensures ConvertToEnum("Add") == Unknown
    ensures ConvertToEnum("STOP") == Unknown
    ensures ConvertToEnum(" add") == Unknown
    ensures ConvertToEnum("add ") == Unknown
  {
  }

  class Terminal {
    /** The last line the worker read. */
    var line: string
    /** Set by the worker when it read a non-empty line, cleared when the line is fetched. */
    var receivedCmd: bool

    constructor ()
      ensures line == "" && !receivedCmd
    {
      line := "";
      receivedCmd := false;
    }

    /**
     * One worker iteration after its timed read returned `read` (empty on a
     * timeout): the line is stored either way, and flagged only when it is
     * not empty.
     */
    method LineRead(read: string)
      modifies this
      ensures line == read
      ensures receivedCmd == (old(receivedCmd) || read != "")
    {
      line := read;
      if read != "" {
        receivedCmd := true;
      }
    }

    /** `hasCommnad`. */
    method HasCommand() returns (r: bool)
      ensures r == receivedCmd
    {
      r := receivedCmd;
    }

    /** `getCommand`: the stored line; the flag is cleared. */
    method GetCommand() returns (cmd: string)
      modifies this`receivedCmd
      ensures cmd == line && !receivedCmd
    {
      receivedCmd := false;
      cmd := line;
    }
  }
}
