// The gate every MQSC command passes before it reaches a queue manager.
module Allowlist {
  import opened Wrappers
  import opened Text

  datatype Denial =
    | EmptyCommand
    | ForbiddenCharacter
    | OnlyComment
    | DeniedVerb(verb: string)
    | UnknownVerb(verb: string)
    | PingOfNonChannel

  const ALLOWED_VERBS := {"DISPLAY", "DIS", "PING"}

  const DENIED_VERBS := {
    "ALTER", "DEFINE", "DELETE", "START", "STOP", "SUSPEND", "RESUME", "REFRESH", "RESET", "CLEAR",
    "MOVE", "RECOVER", "SET", "BACKUP", "END", "ARCHIVE", "RECORD", "REVERIFY", "CHANGE"}

  predicate IsForbidden(c: char) {
    c == ';' || c == '\n' || c == '\r' || c == '\0'
  }

  predicate Clean(s: string) {
    forall i | 0 <= i < |s| :: !IsForbidden(s[i])
  }

  // ---- Comments ----

  predicate StartsComment(s: string) {
    s != [] && (s[0] == '*' || "--" <= s)
  }

  // The number of characters before the next line feed.
  function ToLineEnd(s: string): (n: nat)
    ensures n <= |s|
    ensures s != [] && s[0] != '\n' ==> n > 0
  {
    if s == [] || s[0] == '\n' then 0 else 1 + ToLineEnd(s[1..])
  }

  // Every comment is cut out, from its mark to the end of its line.
  function WithoutComments(s: string): string
    decreases |s|
  {
    if s == [] then []
    else if StartsComment(s) then WithoutComments(s[ToLineEnd(s)..])
    else [s[0]] + WithoutComments(s[1..])
  }

  // The text before the first * or --.
  function BeforeComment(s: string): string {
    if s == [] || StartsComment(s) then [] else [s[0]] + BeforeComment(s[1..])
  }

  lemma {:induction false} OneLineEnds(s: string)
    requires Clean(s)
    ensures ToLineEnd(s) == |s|
  {
    if s != [] {
      OneLineEnds(s[1..]);
    }
  }

  // In a command on a single line, stripping comments keeps exactly the text
  // before the first mark.
  lemma {:induction false} StrippingKeepsTheFront(s: string)
    requires Clean(s)
    ensures WithoutComments(s) == BeforeComment(s)
  {
    if s != [] {
      if StartsComment(s) {
        OneLineEnds(s);
      } else {
        StrippingKeepsTheFront(s[1..]);
      }
    }
  }

  // ---- The gate ----

  function BeforeParenthesis(s: string): string {
    if s == [] || s[0] == '(' then [] else [s[0]] + BeforeParenthesis(s[1..])
  }

  function JudgeWords(tokens: seq<string>): Result<(), Denial> {
    var verb := if tokens == [] then [] else Upper(tokens[0]);
    if verb in DENIED_VERBS then Err(DeniedVerb(verb))
    else if verb !in ALLOWED_VERBS then Err(UnknownVerb(verb))
    else if verb == "PING" then
      var second := if |tokens| >= 2 then BeforeParenthesis(Upper(tokens[1])) else "";
      if second != "CHANNEL" then Err(PingOfNonChannel) else Ok(())
    else Ok(())
  }

  function AssertMqscAllowed(command: string): Result<(), Denial> {
    if Strip(command) == [] then Err(EmptyCommand)
    else if !Clean(command) then Err(ForbiddenCharacter)
    else
      var cleaned := Strip(WithoutComments(command));
      if cleaned == [] then Err(OnlyComment) else JudgeWords(Words(cleaned))
  }

  predicate Allowed(command: string) {
    AssertMqscAllowed(command).Ok?
  }

  // ---- What is allowed ----

  // The first word is DISPLAY or DIS, or the first two are PING CHANNEL.
  predicate IsReadOnly(words: seq<string>) {
    && words != []
    && (Upper(words[0]) in {"DISPLAY", "DIS"}
        || (Upper(words[0]) == "PING" && |words| >= 2 && BeforeParenthesis(Upper(words[1])) == "CHANNEL"))
  }

  lemma {:induction false} WordsIgnoreTrailingSpace(s: string)
    ensures Words(StripRight(s)) == Words(s)
    decreases |s|
  {
    if s != [] && IsSpace(s[|s| - 1]) {
      DroppedSpaceAddsNoWord(s[..|s| - 1], s[|s| - 1]);
      assert s == s[..|s| - 1] + [s[|s| - 1]];
      WordsIgnoreTrailingSpace(s[..|s| - 1]);
    }
  }

  lemma {:induction false} DroppedSpaceAddsNoWord(s: string, c: char)
    requires IsSpace(c)
    ensures Words(s + [c]) == Words(s)
    decreases |s|
  {
    var t := s + [c];
    if s == [] {
      assert t[1..] == [];
    } else if IsSpace(s[0]) {
      assert t[0] == s[0] && t[1..] == s[1..] + [c];
      DroppedSpaceAddsNoWord(s[1..], c);
    } else {
      var n := WordLength(s);
      SpaceEndsWord(s, c);
      assert t[..n] == s[..n] && t[n..] == s[n..] + [c];
      DroppedSpaceAddsNoWord(s[n..], c);
    }
  }

  lemma {:induction false} SpaceEndsWord(s: string, c: char)
    requires IsSpace(c)
    ensures WordLength(s + [c]) == WordLength(s)
  {
    if s != [] && !IsSpace(s[0]) {
      assert (s + [c])[0] == s[0] && (s + [c])[1..] == s[1..] + [c];
      SpaceEndsWord(s[1..], c);
    }
  }

  lemma {:induction false} WordsIgnoreLeadingSpace(s: string)
    ensures Words(StripLeft(s)) == Words(s)
  {
    if s != [] && IsSpace(s[0]) {
      WordsIgnoreLeadingSpace(s[1..]);
    }
  }

  lemma WordsOfStripped(s: string)
    ensures Words(Strip(s)) == Words(s)
    ensures Strip(s) == [] <==> Words(s) == []
  {
    WordsIgnoreLeadingSpace(s);
    WordsIgnoreTrailingSpace(StripLeft(s));
    StripTrims(s);
  }

  lemma {:induction false} FrontWords(s: string)
    ensures Words(BeforeComment(s)) != [] ==> Words(s) != []
  {
    if s != [] && IsSpace(s[0]) {
      FrontWords(s[1..]);
      assert !StartsComment(s);
      assert BeforeComment(s)[1..] == BeforeComment(s[1..]);
    }
  }

  lemma JudgedOkIffReadOnly(words: seq<string>)
    requires words != []
    ensures JudgeWords(words).Ok? <==> IsReadOnly(words)
  {
    hide Upper, BeforeParenthesis;
  }

  // A command is allowed exactly when it is free of ; CR LF and NUL and what
  // stands before its first comment mark is a DISPLAY, DIS or PING CHANNEL.
  lemma AllowedIffReadOnly(command: string)
    ensures Allowed(command) <==> Clean(command) && IsReadOnly(Words(BeforeComment(command)))
  {
    WordsOfStripped(command);
    WordsOfStripped(BeforeComment(command));
    hide Words, Strip, BeforeComment, WithoutComments, JudgeWords;
    if Clean(command) {
      StrippingKeepsTheFront(command);
      FrontWords(command);
      if Words(BeforeComment(command)) != [] {
        JudgedOkIffReadOnly(Words(BeforeComment(command)));
      }
    }
  }

  // ---- The same, told by characters ----

  lemma TwoDashes(s: string)
    ensures "--" <= s <==> |s| > 1 && s[0] == '-' && s[1] == '-'
  {
  }

  // The text before the first comment mark.
  lemma {:induction false} FrontIs(front: string, rest: string)
    requires rest != [] ==> rest[0] == '*' || (|rest| > 1 && rest[0] == '-' && rest[1] == '-')
    requires forall i | 0 <= i < |front| ::
      front[i] != '*' && !(front[i] == '-' && i + 1 < |front + rest| && (front + rest)[i + 1] == '-')
    ensures BeforeComment(front + rest) == front
  {
    if front == [] {
      assert front + rest == rest;
      TwoDashes(rest);
    } else {
      assert (front + rest)[0] == front[0] && (front + rest)[1..] == front[1..] + rest;
      TwoDashes(front + rest);
      FrontIs(front[1..], rest);
    }
  }

  lemma {:induction false} ParenthesisEnds(s: string)
    ensures BeforeParenthesis(s) == "CHANNEL" <==> s == "CHANNEL" || "CHANNEL(" <= s
  {
    EndsBefore(s, "CHANNEL");
  }

  lemma {:induction false} EndsBefore(s: string, word: string)
    requires '(' !in word
    ensures BeforeParenthesis(s) == word <==> s == word || word + "(" <= s
  {
    if s != [] && s[0] != '(' && word != [] && s[0] == word[0] {
      EndsBefore(s[1..], word[1..]);
      assert s == [s[0]] + s[1..] && word == [word[0]] + word[1..];
      assert word + "(" == [word[0]] + (word[1..] + "(");
      assert word[1..] + "(" <= s[1..] <==> word + "(" <= s;
    } else if word == [] {
      assert word + "(" == "(";
    } else {
      assert (word + "(")[0] == word[0];
    }
  }

  // What is allowed, told by the words before the first comment mark.
  lemma AllowedIffVerb(front: string, rest: string, gap: string, verb: string, tail: string)
    requires rest != [] ==> rest[0] == '*' || (|rest| > 1 && rest[0] == '-' && rest[1] == '-')
    requires forall i | 0 <= i < |front| ::
      front[i] != '*' && !(front[i] == '-' && i + 1 < |front + rest| && (front + rest)[i + 1] == '-')
    requires front == gap + (verb + tail)
    requires forall i | 0 <= i < |gap| :: IsSpace(gap[i])
    requires verb != [] && forall i | 0 <= i < |verb| :: !IsSpace(verb[i])
    requires tail != [] ==> IsSpace(tail[0])
    ensures Allowed(front + rest) <==>
      && (forall i | 0 <= i < |front + rest| ::
            var c := (front + rest)[i] as int; c != 0x3B && c != 0xA && c != 0xD && c != 0)
      && (|| Upper(verb) == "DISPLAY" || Upper(verb) == "DIS"
          || (Upper(verb) == "PING" && Words(tail) != []
              && (Upper(Words(tail)[0]) == "CHANNEL" || "CHANNEL(" <= Upper(Words(tail)[0]))))
  {
    FrontIs(front, rest);
    WordIsSplitOff(gap, verb, tail);
    if Words(tail) != [] {
      ParenthesisEnds(Upper(Words(tail)[0]));
    }
    CleanIs(front + rest);
    AllowedIffReadOnly(front + rest);
    hide Upper, Words, BeforeComment, BeforeParenthesis, Allowed, Clean;
  }

  lemma CleanIs(s: string)
    ensures Clean(s) <==> forall i | 0 <= i < |s| :: var c := s[i] as int; c != 0x3B && c != 0xA && c != 0xD && c != 0
  {
    forall i | 0 <= i < |s|
      ensures IsForbidden(s[i]) <==> s[i] as int in {0x3B, 0xA, 0xD, 0}
    {
    }
  }

  // A command without a word in front of its first comment mark is refused.
  lemma NothingIsRefused(gap: string, rest: string)
    requires rest != [] ==> rest[0] == '*' || (|rest| > 1 && rest[0] == '-' && rest[1] == '-')
    requires forall i | 0 <= i < |gap| :: IsSpace(gap[i])
    ensures !Allowed(gap + rest)
  {
    FrontIs(gap, rest);
    SpaceHasNoWords(gap, []);
    assert gap + [] == gap;
    AllowedIffReadOnly(gap + rest);
    hide BeforeComment, Allowed, Clean;
  }

  // The verbs that are refused by name.
  lemma DeniedVerbsAre(words: seq<string>)
    requires words != []
    ensures var v := Upper(words[0]);
            JudgeWords(words) == Err(DeniedVerb(v)) <==>
              || v == "ALTER" || v == "DEFINE" || v == "DELETE" || v == "START" || v == "STOP" || v == "SUSPEND"
              || v == "RESUME" || v == "REFRESH" || v == "RESET" || v == "CLEAR" || v == "MOVE" || v == "RECOVER"
              || v == "SET" || v == "BACKUP" || v == "END" || v == "ARCHIVE" || v == "RECORD" || v == "REVERIFY"
              || v == "CHANGE"
  {
    hide Upper, BeforeParenthesis;
  }
}
