/** The command-line check at the top of `main`: exactly one argument, which is not `-h`. */
module Cli {
  import opened Maybe

  /** The status `main` returns after printing the usage line. */
  const UsageStatus: int := 1

  const HelpFlag: string := "-h"

  /**
    The file name to view, taken from `argv` (program name first), or None when
    the program prints its usage: the argument count is not two, or the one
    argument is `-h`.
   */
  function FileArgument(argv: seq<string>): (r: Option<string>)
    ensures r.None? <==> |argv| != 2 || argv[1] == HelpFlag
    ensures r.Some? ==> |argv| == 2 && r.value == argv[1] && r.value != HelpFlag
  {
    if |argv| != 2 || argv[1] == HelpFlag then None else Some(argv[1])
  }

  /** Only a lone `-h` asks for help: a longer argument, or `-h` among others, is treated by arity alone. */
  lemma FileArgumentExamples()
    ensures FileArgument(["sip", "cat.png"]) == Some("cat.png")
    ensures FileArgument(["sip", "-hx"]) == Some("-hx")
    ensures FileArgument(["sip", "-h"]) == None
    ensures FileArgument(["sip"]) == None
    ensures FileArgument(["sip", "-h", "cat.png"]) == None
    ensures FileArgument([]) == None
  {
  }
}
