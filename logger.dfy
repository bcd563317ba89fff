/** src/compo/Logger.ts: asks whether to write a log for the backup and, if
    so, opens `log.md` of its directory in `vi`.  The prompt's reply is an
    input; opening the editor is returned as the command line it spawns. */
module Logger {
  import opened Outcomes
  import opened Js

  const Question := "로그를 기록하시겠습니까? (Y/n): "

  /** `#setIsWirte`: only the exact answer "Y" means write; the comparison is
      case-sensitive. */
  function SetIsWrite(answer: string): (r: bool)
    ensures r <==> answer == "Y"
  {
    answer == "Y"
  }

  /** `prompt(...)?.trim() || "Y"`: no reply (end of input) and a reply that
      is blank once trimmed both default to "Y"; any other reply is taken
      trimmed. */
  function EffectiveAnswer(reply: Option<string>): (r: string)
    ensures r != []
    ensures reply.None? ==> r == "Y"
    ensures reply.Some? && AllSpace(reply.value) ==> r == "Y"
    ensures reply.Some? && !AllSpace(reply.value) ==> r == Trim(reply.value)
  {
    match reply
    case None => "Y"
    case Some(s) => if Trim(s) == "" then "Y" else Trim(s)
  }

  /** Whether a reply to the question leads to writing the log. */
  function WriteChosen(reply: Option<string>): bool {
    SetIsWrite(EffectiveAnswer(reply))
  }

  /** The log is written exactly when there is no reply, the reply is blank,
      or it is "Y" once trimmed. */
  lemma WriteChosenIff(reply: Option<string>)
    ensures WriteChosen(reply) <==>
      reply.None? || AllSpace(reply.value) || Trim(reply.value) == "Y"
  {
  }

  /** "Y" with white space around it still means write ... */
  lemma PaddedYesWrites(pre: string, post: string)
    requires AllSpace(pre) && AllSpace(post)
    ensures WriteChosen(Some(pre + "Y" + post))
  {
    TrimPadded(pre, "Y", post);
  }

  /** ... but any other word, such as the lower-case "y" or "n", does not. */
  lemma OtherWordsSkip(pre: string, w: string, post: string)
    requires AllSpace(pre) && AllSpace(post)
    requires w != [] && Trimmed(w) && w != "Y"
    ensures !WriteChosen(Some(pre + w + post))
  {
    TrimPadded(pre, w, post);
  }

  /** The comparison is case-sensitive: "y" does not write. */
  lemma LowerCaseYSkips()
    ensures !WriteChosen(Some("y"))
  {
    assert "y"[0] != "Y"[0];
    assert Trimmed("y");
    OtherWordsSkip("", "y", "");
    assert "" + "y" + "" == "y";
  }

  /** Pressing enter and closing the input both take the default. */
  lemma DefaultIsWrite()
    ensures WriteChosen(None)
    ensures WriteChosen(Some(""))
    ensures WriteChosen(Some("  "))
  {
  }

  class Logger {
    var isWrite: bool
    const workDirName: string

    /** A new logger is set to write, for the directory it is given. */
    constructor(workDirName: string)
      ensures this.workDirName == workDirName
      ensures isWrite
    {
      this.workDirName := workDirName;
      isWrite := true;
    }

    /** The file `write` opens: `log.md` in the directory fixed at
        construction. */
    function LogPath(): (r: string)
      ensures |r| == |workDirName| + 7
      ensures r[..|workDirName|] == workDirName && r[|workDirName|..] == "/log.md"
    {
      workDirName + "/log.md"
    }

    /** `selectChoice`: the reply to the question replaces the flag. */
    method SelectChoice(reply: Option<string>)
      modifies this
      ensures isWrite == WriteChosen(reply)
    {
      var answer := EffectiveAnswer(reply);
      isWrite := SetIsWrite(answer);
    }

    /** `write`: the command line spawned, `vi` on the log file. */
    method Write() returns (argv: seq<string>)
      ensures argv == ["vi", LogPath()]
    {
      argv := ["vi", workDirName + "/log.md"];
    }

    /** `choiceWirte`: ask, then open the editor exactly when the answer says
        write.  The result is the editor command line, if one is spawned. */
    method ChoiceWrite(reply: Option<string>) returns (editor: Option<seq<string>>)
      modifies this
      ensures isWrite == WriteChosen(reply)
      ensures editor.Some? <==> isWrite
      ensures editor.Some? ==> editor.value == ["vi", LogPath()]
      ensures editor == ChosenEditor(workDirName, reply)
    {
      SelectChoice(reply);
      editor := None;
      if isWrite {
        var argv := Write();
        editor := Some(argv);
      }
    }
  }

  /** What `choiceWirte` spawns, as a function of the reply, for the logger
      of `workDirName`. */
  function ChosenEditor(workDirName: string, reply: Option<string>): (r: Option<seq<string>>)
    ensures r.Some? <==> WriteChosen(reply)
  {
    if WriteChosen(reply) then Some(["vi", workDirName + "/log.md"]) else None
  }
}
