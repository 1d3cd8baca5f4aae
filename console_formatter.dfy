/** The console log line layout of `ConsoleFormatter`: a colour chosen by the
    record's level, the plugin name in brackets, a level tag for the
    configuration and fine-grained levels, the message, and a colour reset. */
module Logging {
  import opened JavaStrings

  /** The console colours the formatter uses; their escape codes belong to
      `ConsoleColor`, which is not part of this model. */
  datatype ConsoleColor = Yellow | DarkRed | DarkBlue | Blue | Reset

  /** A piece of formatted output: a colour switch or literal text. */
  datatype Piece = Color(color: ConsoleColor) | Text(text: string)

  /** A `java.util.logging.Level`: two levels are equal when their values are. */
  datatype Level = Level(name: string, value: int)

  const SEVERE := Level("SEVERE", 1000)
  const WARNING := Level("WARNING", 900)
  const INFO := Level("INFO", 800)
  const CONFIG := Level("CONFIG", 700)
  const FINE := Level("FINE", 500)
  const FINER := Level("FINER", 400)
  const FINEST := Level("FINEST", 300)

  /** `Level.equals`. */
  predicate SameLevel(a: Level, b: Level)
  {
    a.value == b.value
  }

  /** `format(record)` for a record of `level` whose formatted message is
      `message`, logged by the plugin called `pluginName`. */
  function Format(level: Level, pluginName: string, message: string): (r: seq<Piece>)
    ensures 2 <= |r| <= 3
    ensures r[|r| - 1] == Color(Reset)
    ensures r[|r| - 2].Text? && EndsWith(r[|r| - 2].text, message)
  {
    var head := "[" + pluginName + "] ";
    var lead :=
      if SameLevel(WARNING, level) then [Color(Yellow), Text(head)]
      else if SameLevel(SEVERE, level) then [Color(DarkRed), Text(head)]
      else if SameLevel(CONFIG, level) then [Color(DarkBlue), Text(head + "[CONFIG] ")]
      else if SameLevel(FINE, level) then [Color(Blue), Text(head + "[FINE] ")]
      else if SameLevel(FINER, level) then [Color(Blue), Text(head + "[FINER] ")]
      else if SameLevel(FINEST, level) then [Color(Blue), Text(head + "[FINEST] ")]
      else [Text(head)];
    var text := lead[|lead| - 1].text + message;
    assert text[|text| - |message|..] == message;
    lead[..|lead| - 1] + [Text(text), Color(Reset)]
  }

  /** The decoration of each level value that has one: its colour and its tag. */
  const Decorations: map<int, (ConsoleColor, string)> := map[
    1000 := (DarkRed, ""),
    900 := (Yellow, ""),
    700 := (DarkBlue, "[CONFIG] "),
    500 := (Blue, "[FINE] "),
    400 := (Blue, "[FINER] "),
    300 := (Blue, "[FINEST] ")
  ]

  /** The formatted line agrees with the decoration table: a decorated level
      starts with its colour and carries its tag after the bracketed plugin
      name; every other level is the bracketed name and the message alone. */
  lemma FormatFollowsTable(level: Level, pluginName: string, message: string)
    ensures level.value in Decorations ==>
      Format(level, pluginName, message)
        == [Color(Decorations[level.value].0),
            Text("[" + pluginName + "] " + Decorations[level.value].1 + message),
            Color(Reset)]
    ensures level.value !in Decorations ==>
      Format(level, pluginName, message) == [Text("[" + pluginName + "] " + message), Color(Reset)]
  {
    var head := "[" + pluginName + "] ";
    assert head + "" == head;
  }

  /** The line depends on the level only through its value, as `Level.equals` does. */
  lemma FormatByValue(a: Level, b: Level, pluginName: string, message: string)
    requires SameLevel(a, b)
    ensures Format(a, pluginName, message) == Format(b, pluginName, message)
  {
  }
}
