/** Passing the options of a resumed job to the Slurm submit command. */
module SlurmOptions {
  import opened Strings

  /** The value of an option in the parsed name space. */
  datatype OptionValue = Missing | Flag(isSet: bool) | Text(text: string) | Texts(texts: seq<string>)

  type Options = seq<(string, OptionValue)>

  predicate StartsWithDash(s: string) {
    s != "" && s[0] == '-'
  }

  function JoinWith(texts: seq<string>, sep: string): string {
    if texts == [] then ""
    else if |texts| == 1 then texts[0]
    else texts[0] + sep + JoinWith(texts[1..], sep)
  }

  /** Values without the separator can be told apart again. */
  lemma {:induction false} JoinedTexts(texts: seq<string>, c: char)
    requires texts != [] && forall i :: 0 <= i < |texts| ==> c !in texts[i]
    ensures SplitOn(JoinWith(texts, [c]), c) == texts
  {
    if |texts| == 1 {
      SplitNone(texts[0], c);
    } else {
      var rest := texts[1..];
      assert c !in texts[0];
      JoinedTexts(rest, c);
      SplitFirst(texts[0], JoinWith(rest, [c]), c);
      assert texts == [texts[0]] + rest;
    }
  }

  /** Neither None nor False. */
  predicate IsGiven(value: OptionValue) {
    match value
    case Missing => false
    case Flag(isSet) => isSet
    case _ => true
  }

  /** The text that follows the option name, if any. */
  function Arguments(value: OptionValue, sep: string): seq<string> {
    match value
    case Text(text) => [text]
    case Texts(texts) => [JoinWith(texts, sep)]
    case _ => []
  }

  function EntryWords(entry: (string, OptionValue), sep: string): seq<string> {
    if IsGiven(entry.1) then ["-" + entry.0] + Arguments(entry.1, sep) else []
  }

  function OptionWords(options: Options, sep: string): seq<string> {
    if options == [] then []
    else EntryWords(options[0], sep) + OptionWords(options[1..], sep)
  }

  lemma NextWords(options: Options, i: nat, before: seq<string>, sep: string)
    requires i < |options|
    ensures before + OptionWords(options[i..], sep)
         == before + EntryWords(options[i], sep) + OptionWords(options[i + 1..], sep)
  {
    assert options[i..][1..] == options[i + 1..];
  }

  method OptionsDictToList(options: Options, optSep: string) returns (optList: seq<string>)
    ensures optList == OptionWords(options, optSep)
  {
    optList := [];
    var i := 0;
    while i < |options|
      invariant i <= |options|
      invariant optList + OptionWords(options[i..], optSep) == OptionWords(options, optSep)
    {
      var (key, value) := options[i];
      ghost var before := optList;
      if value != Flag(false) && value != Missing {
        optList := optList + ["-" + key];
        if value != Flag(true) {
          if value.Texts? {
            optList := optList + [JoinWith(value.texts, optSep)];
          } else {
            optList := optList + [value.text];
          }
        }
      }
      assert optList == before + EntryWords(options[i], optSep);
      NextWords(options, i, before, optSep);
      i := i + 1;
    }
  }

  /** An option and the word behind it are joined, unless that is an option as well; words
      that follow no option are dropped. */
  function Joined(words: seq<string>): seq<string> {
    if words == [] then []
    else if !StartsWithDash(words[0]) then Joined(words[1..])
    else if |words| > 1 && !StartsWithDash(words[1]) then
      ["-" + words[0] + "=" + words[1]] + Joined(words[2..])
    else ["-" + words[0]] + Joined(words[1..])
  }

  method PreprocessCliOptions(options: seq<string>) returns (newOptions: seq<string>)
    ensures newOptions == Joined(options)
  {
    newOptions := [];
    var ignoreNext := false;
    var i := 0;
    while i < |options|
      invariant i <= |options| && (ignoreNext ==> i < |options|)
      invariant newOptions + Joined(options[if ignoreNext then i + 1 else i..]) == Joined(options)
    {
      var item := options[i];
      ghost var before, rest := newOptions, options[i..];
      if ignoreNext {
        ignoreNext := false;
      } else {
        assert rest[1..] == options[i + 1..];
        if StartsWithDash(item) {
          if i + 1 < |options| && !StartsWithDash(options[i + 1]) {
            assert rest[2..] == options[i + 2..];
            ignoreNext := true;
            newOptions := newOptions + ["-" + item + "=" + options[i + 1]];
          } else {
            newOptions := newOptions + ["-" + item];
          }
        }
      }
      i := i + 1;
    }
  }

  /** One word for every option that is given, in order. */
  function Expected(options: Options, sep: string): seq<string> {
    if options == [] then []
    else
      var (key, value) := options[0];
      var arguments := Arguments(value, sep);
      (if !IsGiven(value) then []
       else if arguments == [] then ["--" + key]
       else ["--" + key + "=" + arguments[0]]) + Expected(options[1..], sep)
  }

  predicate DashedValue(value: OptionValue, sep: string) {
    var arguments := Arguments(value, sep);
    arguments != [] && StartsWithDash(arguments[0])
  }

  /** How many values start with a dash. */
  function DashedValues(options: Options, sep: string): nat {
    if options == [] then 0
    else (if DashedValue(options[0].1, sep) then 1 else 0) + DashedValues(options[1..], sep)
  }

  lemma {:induction false} WordsStartWithDash(options: Options, sep: string)
    ensures OptionWords(options, sep) != [] ==> StartsWithDash(OptionWords(options, sep)[0])
  {
    if options == [] {
    } else {
      WordsStartWithDash(options[1..], sep);
    }
  }

  lemma JoinedAlone(word: string, rest: seq<string>)
    requires StartsWithDash(word) && (rest != [] ==> StartsWithDash(rest[0]))
    ensures Joined([word] + rest) == ["-" + word] + Joined(rest)
  {
    var words := [word] + rest;
    assert words[1..] == rest;
  }

  lemma ConsTwice(a: string, b: string, rest: seq<string>)
    ensures [a] + ([b] + rest) == [a, b] + rest
  {
  }

  lemma JoinedDashed(key: string, text: string, rest: seq<string>)
    requires StartsWithDash(text) && (rest != [] ==> StartsWithDash(rest[0]))
    ensures Joined(["-" + key] + ([text] + rest)) == ["--" + key, "-" + text] + Joined(rest)
  {
    JoinedAlone("-" + key, [text] + rest);
    JoinedAlone(text, rest);
    assert "-" + ("-" + key) == "--" + key;
    ConsTwice("--" + key, "-" + text, Joined(rest));
  }

  lemma JoinedPair(key: string, value: string, rest: seq<string>)
    requires !StartsWithDash(value)
    ensures Joined(["-" + key] + ([value] + rest)) == ["--" + key + "=" + value] + Joined(rest)
  {
    var words := ["-" + key] + ([value] + rest);
    assert words[2..] == rest;
    assert "-" + ("-" + key) == "--" + key;
  }

  lemma JoinedEntry(entry: (string, OptionValue), rest: seq<string>, sep: string)
    requires rest != [] ==> StartsWithDash(rest[0])
    ensures var words := EntryWords(entry, sep) + rest; var (key, value) := entry;
      Joined(words) ==
        (if !IsGiven(value) then []
         else if Arguments(value, sep) == [] then ["--" + key]
         else if DashedValue(value, sep) then ["--" + key, "-" + Arguments(value, sep)[0]]
         else ["--" + key + "=" + Arguments(value, sep)[0]]) + Joined(rest)
  {
    var (key, value) := entry;
    if !IsGiven(value) {
      assert [] + rest == rest;
      assert [] + Joined(rest) == Joined(rest);
    } else if Arguments(value, sep) == [] {
      assert ["-" + key] + [] == ["-" + key];
      JoinedAlone("-" + key, rest);
      assert "-" + ("-" + key) == "--" + key;
    } else {
      var text := Arguments(value, sep)[0];
      assert EntryWords(entry, sep) + rest == ["-" + key] + ([text] + rest);
      if DashedValue(value, sep) {
        JoinedDashed(key, text, rest);
      } else {
        JoinedPair(key, text, rest);
      }
    }
  }

  /** A value that starts with a dash becomes a word of its own. */
  lemma {:induction false} WordCount(options: Options, sep: string)
    ensures |Joined(OptionWords(options, sep))| == |Expected(options, sep)| + DashedValues(options, sep)
    ensures DashedValues(options, sep) == 0 ==>
      Joined(OptionWords(options, sep)) == Expected(options, sep)
  {
    if options == [] {
    } else {
      var entry, rest := options[0], OptionWords(options[1..], sep);
      WordCount(options[1..], sep);
      WordsStartWithDash(options[1..], sep);
      JoinedEntry(entry, rest, sep);
    }
  }

  lemma {:induction false} NoDashedValues(options: Options, sep: string)
    ensures DashedValues(options, sep) == 0
       <==> forall i :: 0 <= i < |options| ==> !DashedValue(options[i].1, sep)
  {
    if options == [] {
    } else {
      NoDashedValues(options[1..], sep);
      if DashedValues(options, sep) == 0 {
        forall i | 0 <= i < |options| ensures !DashedValue(options[i].1, sep) {
          assert i > 0 ==> options[i] == options[1..][i - 1];
        }
      } else if !DashedValue(options[0].1, sep) {
        var i :| 0 <= i < |options[1..]| && DashedValue(options[1..][i].1, sep);
        assert options[i + 1] == options[1..][i];
      }
    }
  }

  /** Every option that is given becomes exactly one word, and nothing else does, exactly
      when no value starts with a dash. */
  lemma NoOptionIsLost(options: Options, sep: string)
    ensures Joined(OptionWords(options, sep)) == Expected(options, sep)
       <==> forall i :: 0 <= i < |options| ==> !DashedValue(options[i].1, sep)
  {
    WordCount(options, sep);
    NoDashedValues(options, sep);
  }

  /** A negative value: one option becomes two words. */
  lemma DashedValueSplits()
    ensures var options := [("nice", Text("-5"))];
      && Joined(OptionWords(options, ",")) == ["--nice", "--5"]
      && Expected(options, ",") == ["--nice=-5"]
  {
    var options := [("nice", Text("-5"))];
    assert options[1..] == [] && OptionWords([], ",") == [];
    JoinedDashed("nice", "-5", []);
    assert "--" + "nice" == "--nice" && "-" + "-5" == "--5";
    assert "--" + "nice" + "=" + "-5" == "--nice=-5";
    assert OptionWords(options, ",") == ["-" + "nice"] + (["-5"] + []);
  }

  // ------------------------------------------------------ what is given

  /** What an entry of each kind yields. */
  lemma WordsOfEntry(key: string, isSet: bool, text: string, texts: seq<string>, sep: string)
    ensures OptionWords([(key, Missing)], sep) == []
    ensures OptionWords([(key, Flag(isSet))], sep) == if isSet then ["-" + key] else []
    ensures OptionWords([(key, Text(text))], sep) == ["-" + key, text]
    ensures OptionWords([(key, Texts(texts))], sep) == ["-" + key, JoinWith(texts, sep)]
    ensures OptionWords([], sep) == []
  {
    assert [(key, Missing)][1..] == [] && [(key, Flag(isSet))][1..] == [];
    assert [(key, Text(text))][1..] == [] && [(key, Texts(texts))][1..] == [];
  }

  lemma ThreeLists(x: seq<string>, y: seq<string>, z: seq<string>)
    ensures x + (y + z) == (x + y) + z
  {
  }

  lemma {:induction false} OptionWordsConcat(a: Options, b: Options, sep: string)
    ensures OptionWords(a + b, sep) == OptionWords(a, sep) + OptionWords(b, sep)
  {
    if a == [] {
      assert a + b == b;
    } else {
      assert (a + b)[1..] == a[1..] + b;
      OptionWordsConcat(a[1..], b, sep);
      ThreeLists(EntryWords(a[0], sep), OptionWords(a[1..], sep), OptionWords(b, sep));
    }
  }

  /** The entries whose value is neither None nor False. */
  function Specified(options: Options): Options {
    if options == [] then []
    else if options[0].1 == Missing || options[0].1 == Flag(false) then Specified(options[1..])
    else [options[0]] + Specified(options[1..])
  }

  /** The word that is expected for such an entry. */
  function SlurmWord(entry: (string, OptionValue), sep: string): string {
    match entry.1
    case Text(text) => "--" + entry.0 + "=" + text
    case Texts(texts) => "--" + entry.0 + "=" + JoinWith(texts, sep)
    case _ => "--" + entry.0
  }

  function SlurmWords(options: Options, sep: string): seq<string> {
    seq(|options|, i requires 0 <= i < |options| => SlurmWord(options[i], sep))
  }

  lemma SlurmWordsFirst(entry: (string, OptionValue), rest: Options, sep: string)
    ensures SlurmWords([entry] + rest, sep) == [SlurmWord(entry, sep)] + SlurmWords(rest, sep)
  {
  }

  lemma {:induction false} ExpectedIsSpecified(options: Options, sep: string)
    ensures Expected(options, sep) == SlurmWords(Specified(options), sep)
  {
    if options == [] {
    } else {
      ExpectedIsSpecified(options[1..], sep);
      if options[0].1 == Missing || options[0].1 == Flag(false) {
        assert [] + Expected(options[1..], sep) == Expected(options[1..], sep);
      } else {
        SlurmWordsFirst(options[0], Specified(options[1..]), sep);
      }
    }
  }

  /** The text of no value starts with a dash. */
  predicate NoDashes(options: Options, sep: string) {
    forall i :: 0 <= i < |options| ==>
      match options[i].1
      case Text(text) => !(text != "" && text[0] == '-')
      case Texts(texts) => var text := JoinWith(texts, sep); !(text != "" && text[0] == '-')
      case _ => true
  }

  /** The rewritten list has, in order, one word for each entry that is neither None nor False,
      and no other, exactly when no value starts with a dash. */
  lemma RewrittenWords(options: Options, sep: string)
    ensures Joined(OptionWords(options, sep)) == SlurmWords(Specified(options), sep) <==> NoDashes(options, sep)
  {
    NoOptionIsLost(options, sep);
    ExpectedIsSpecified(options, sep);
    if NoDashes(options, sep) {
      forall i | 0 <= i < |options| ensures !DashedValue(options[i].1, sep) {
      }
    }
    if forall i :: 0 <= i < |options| ==> !DashedValue(options[i].1, sep) {
      forall i | 0 <= i < |options|
        ensures match options[i].1
          case Text(text) => !(text != "" && text[0] == '-')
          case Texts(texts) => var text := JoinWith(texts, sep); !(text != "" && text[0] == '-')
          case _ => true
      {
        assert !DashedValue(options[i].1, sep);
      }
    }
  }

  /** A word that follows no option is dropped; an option takes the next word unless that is an
      option as well. */
  lemma JoinedFirst(word: string, next: string, rest: seq<string>)
    requires word != "" && word[0] == '-'
    ensures next == "" || next[0] != '-' ==> Joined([next] + rest) == Joined(rest)
    ensures next == "" || next[0] != '-' ==> Joined([word, next] + rest) == ["-" + word + "=" + next] + Joined(rest)
    ensures next != "" && next[0] == '-' ==> Joined([word, next] + rest) == ["-" + word] + Joined([next] + rest)
    ensures Joined([word]) == ["-" + word] && Joined([]) == []
  {
    assert ([next] + rest)[1..] == rest;
    assert ([word, next] + rest)[1..] == [next] + rest && ([word, next] + rest)[2..] == rest;
    assert [word][1..] == [];
  }
}
