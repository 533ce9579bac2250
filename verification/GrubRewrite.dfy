/** The text rewrite of logical-volume entries in a grub file: three sed substitutions, line by line. The
    expression sed receives is rd.lvm.lv=[^ ]* with unescaped dots, because the shell string is built in a
    double-quoted Ruby string; each dot therefore matches any character. */
module GrubRewrite {
  import opened Seqs

  const TOKEN := "RD_LVM_ENTRY"

  /** An entry starts here: rd?lvm?lv= with any characters at the dots. */
  predicate EntryAt(s: string) {
    && |s| >= 10
    && s[0] == 'r' && s[1] == 'd' && s[3] == 'l' && s[4] == 'v' && s[5] == 'm'
    && s[7] == 'l' && s[8] == 'v' && s[9] == '='
  }

  predicate TokenAt(s: string) {
    TOKEN <= s
  }

  /** The text after the longest run of non-blanks at the start of `s`. */
  function AfterWord(s: string): (r: string)
    ensures |r| <= |s|
    ensures r != "" ==> r[0] == ' '
  {
    if s == "" || s[0] == ' ' then s else AfterWord(s[1..])
  }

  function AfterBlanks(s: string): (r: string)
    ensures |r| <= |s|
    ensures r == "" || r[0] != ' '
  {
    if s != "" && s[0] == ' ' then AfterBlanks(s[1..]) else s
  }

  /** First substitution: every entry up to its blank becomes the token. */
  function MarkEntries(s: string): string
    decreases |s|
  {
    if s == "" then ""
    else if EntryAt(s) then TOKEN + MarkEntries(AfterWord(s[10..]))
    else [s[0]] + MarkEntries(s[1..])
  }

  /** The text after the longest run of tokens, each followed by any number of blanks. */
  function AfterTokens(s: string): (r: string)
    ensures |r| <= |s|
    ensures TokenAt(s) ==> |r| < |s|
    ensures !TokenAt(r)
    decreases |s|
  {
    if TokenAt(s) then AfterTokens(AfterBlanks(s[|TOKEN|..])) else s
  }

  /** Second substitution: every run of tokens becomes the new list and one blank. */
  function ReplaceRuns(s: string, names: string): string
    decreases |s|
  {
    if s == "" then ""
    else if TokenAt(s) then names + " " + ReplaceRuns(AfterTokens(s), names)
    else [s[0]] + ReplaceRuns(s[1..], names)
  }

  /** Third substitution: any token still there is dropped. */
  function DropTokens(s: string): string
    decreases |s|
  {
    if s == "" then ""
    else if TokenAt(s) then DropTokens(s[|TOKEN|..])
    else [s[0]] + DropTokens(s[1..])
  }

  function SedLine(s: string, names: string): string {
    DropTokens(ReplaceRuns(MarkEntries(s), names))
  }

  /** A file is a sequence of lines, none of which holds a line break. */
  function SedFile(lines: seq<string>, names: string): seq<string> {
    Map((line: string) => SedLine(line, names), lines)
  }

  // ---------------------------------------------------------------- the single-pass reference

  /** What the rewrite replaces starts here: an entry, or a literal token of the original text. */
  predicate RunAt(s: string) {
    EntryAt(s) || TokenAt(s)
  }

  /** The text after the longest run of entries and tokens with their trailing blanks. */
  function AfterRun(s: string): (r: string)
    ensures |r| <= |s|
    ensures RunAt(s) ==> |r| < |s|
    ensures !RunAt(r)
    ensures RunAt(s) ==> r == "" || r[0] != ' '
    decreases |s|
  {
    if EntryAt(s) then AfterRun(AfterBlanks(AfterWord(s[10..])))
    else if TokenAt(s) then AfterRun(AfterBlanks(s[|TOKEN|..]))
    else s
  }

  function Rewrite(s: string, names: string): string
    decreases |s|
  {
    if s == "" then ""
    else if RunAt(s) then names + " " + Rewrite(AfterRun(s), names)
    else [s[0]] + Rewrite(s[1..], names)
  }

  /** The text outside the runs, as the pieces between them. */
  function Outside(s: string): (pieces: seq<string>)
    ensures pieces != []
    decreases |s|
  {
    if s == "" then [""]
    else if RunAt(s) then [""] + Outside(AfterRun(s))
    else
      var rest := Outside(s[1..]);
      [[s[0]] + rest[0]] + rest[1..]
  }

  // ---------------------------------------------------------------- the three substitutions are that single pass

  function TokenChar(k: nat): char {
    match k
    case 0 => 'R'
    case 1 => 'D'
    case 3 => 'L'
    case 4 => 'V'
    case 5 => 'M'
    case 7 => 'E'
    case 8 => 'N'
    case 9 => 'T'
    case 10 => 'R'
    case 11 => 'Y'
    case _ => '_'
  }

  /** The tail of the token from its k-th character on. */
  predicate TokenTailAt(s: string, k: nat)
    requires k <= 12
    decreases 12 - k
  {
    k == 12 || (s != "" && s[0] == TokenChar(k) && TokenTailAt(s[1..], k + 1))
  }

  lemma {:induction false} TokenSpelling()
    ensures |TOKEN| == 12 && forall k :: 0 <= k < 12 ==> TOKEN[k] == TokenChar(k)
  {
  }

  lemma {:induction false} TokenTailFrom(s: string, k: nat)
    requires k <= 12 && k <= |s|
    ensures TokenTailAt(s[k..], k) <==> |s| >= 12 && forall i :: k <= i < 12 ==> s[i] == TokenChar(i)
    decreases 12 - k
  {
    if k < 12 && k < |s| {
      assert s[k..][1..] == s[k + 1..] && s[k..][0] == s[k];
      TokenTailFrom(s, k + 1);
    }
  }

  lemma {:induction false} TokenTail(s: string)
    ensures TokenAt(s) <==> TokenTailAt(s, 0)
  {
    TokenSpelling();
    assert s[0..] == s;
    TokenTailFrom(s, 0);
  }

  /** Marking leaves text without a lower-case r alone. */
  lemma {:induction false} MarkSkips(s: string, k: nat)
    requires k <= |s| && forall i :: 0 <= i < k ==> s[i] != 'r'
    ensures MarkEntries(s) == s[..k] + MarkEntries(s[k..])
  {
    if k == 0 {
      assert s[0..] == s;
    } else {
      MarkSkips(s[1..], k - 1);
      assert s[1..][k - 1..] == s[k..] && [s[0]] + s[1..][..k - 1] == s[..k];
    }
  }

  /** Marking does not complete a token that the text had not. */
  lemma {:induction false} MarkMakesNoToken(s: string, k: nat)
    requires k <= 12 && (k == 0 ==> !EntryAt(s)) && TokenTailAt(MarkEntries(s), k)
    ensures TokenTailAt(s, k)
    decreases 12 - k
  {
    if k < 12 && s != "" {
      if EntryAt(s) {
        TokenSpelling();
        assert MarkEntries(s)[0] == 'R' && MarkEntries(s)[1..][0] == 'D';
      } else {
        assert MarkEntries(s)[1..] == MarkEntries(s[1..]);
        MarkMakesNoToken(s[1..], k + 1);
      }
    }
  }

  lemma {:induction false} TokenAfterMarking(s: string)
    ensures TokenAt(MarkEntries(s)) <==> RunAt(s)
    ensures TokenAt(s) && !EntryAt(s) ==> MarkEntries(s) == TOKEN + MarkEntries(s[|TOKEN|..])
  {
    TokenSpelling();
    if EntryAt(s) {
    } else if TokenAt(s) {
      assert forall i :: 0 <= i < |TOKEN| ==> s[i] == TOKEN[i];
      MarkSkips(s, |TOKEN|);
    } else {
      TokenTail(MarkEntries(s));
      TokenTail(s);
      if TokenTailAt(MarkEntries(s), 0) {
        MarkMakesNoToken(s, 0);
      }
    }
  }

  lemma {:induction false} BlanksAfterMarking(s: string)
    ensures AfterBlanks(MarkEntries(s)) == MarkEntries(AfterBlanks(s))
    decreases |s|
  {
    if s != "" && s[0] == ' ' {
      BlanksAfterMarking(s[1..]);
      assert MarkEntries(s)[1..] == MarkEntries(s[1..]);
    }
  }

  lemma {:induction false} RunAfterMarking(s: string)
    ensures AfterTokens(MarkEntries(s)) == MarkEntries(AfterRun(s))
    decreases |s|
  {
    TokenAfterMarking(s);
    if EntryAt(s) {
      var rest := AfterWord(s[10..]);
      assert MarkEntries(s)[|TOKEN|..] == MarkEntries(rest);
      BlanksAfterMarking(rest);
      RunAfterMarking(AfterBlanks(rest));
    } else if TokenAt(s) {
      assert MarkEntries(s)[|TOKEN|..] == MarkEntries(s[|TOKEN|..]);
      BlanksAfterMarking(s[|TOKEN|..]);
      RunAfterMarking(AfterBlanks(s[|TOKEN|..]));
    }
  }

  lemma {:induction false} ReplacedOnce(s: string, names: string)
    ensures ReplaceRuns(MarkEntries(s), names) == Rewrite(s, names)
    decreases |s|
  {
    if s != "" {
      TokenAfterMarking(s);
      if RunAt(s) {
        RunAfterMarking(s);
        ReplacedOnce(AfterRun(s), names);
      } else {
        assert MarkEntries(s)[1..] == MarkEntries(s[1..]);
        ReplacedOnce(s[1..], names);
      }
    }
  }

  // ---------------------------------------------------------------- the list of entries

  /** Volume names are made of group and item names, which hold no blank; the token is assumed not to occur. */
  predicate CleanName(name: string) {
    && (forall i :: 0 <= i < |name| ==> name[i] != ' ')
    && (forall i :: 0 <= i <= |name| ==> !TokenAt(name[i..]))
  }

  predicate CleanList(list: seq<string>) {
    forall i :: 0 <= i < |list| ==> CleanName(list[i])
  }

  function Entry(name: string): string {
    "rd.lvm.lv=" + name
  }

  /** The request's list: the entries joined by single blanks. */
  function LvString(list: seq<string>): string {
    if list == [] then ""
    else if |list| == 1 then Entry(list[0])
    else Entry(list[0]) + " " + LvString(list[1..])
  }

  lemma {:induction false} NotToken(s: string, k: nat)
    requires k < 12 && (k < |s| ==> s[k] != TokenChar(k))
    ensures !TokenAt(s)
  {
    TokenSpelling();
  }

  lemma {:induction false} NoTokenInEntry(name: string, i: nat, tail: string)
    requires CleanName(name) && i < |Entry(name)|
    requires tail == "" || tail[0] == ' '
    ensures !TokenAt(Entry(name)[i..] + tail)
  {
    var t := Entry(name)[i..] + tail;
    if i < 10 {
      assert t[0] == "rd.lvm.lv="[i];
      NotToken(t, 0);
    } else {
      var left := name[i - 10..];
      assert Entry(name)[i..] == left;
      if |left| < 12 {
        assert |left| < |t| ==> t[|left|] == ' ';
        NotToken(t, |left|);
      } else {
        TokenSpelling();
        assert t[..12] == left[..12];
        assert !TokenAt(left);
      }
    }
  }

  lemma {:induction false} NoTokenInList(list: seq<string>, i: nat, tail: string)
    requires CleanList(list) && i < |LvString(list)|
    requires tail == "" || tail[0] == ' '
    ensures !TokenAt(LvString(list)[i..] + tail)
  {
    if |list| == 1 {
      NoTokenInEntry(list[0], i, tail);
    } else {
      var head, rest := Entry(list[0]), LvString(list[1..]);
      if i < |head| {
        assert LvString(list)[i..] + tail == head[i..] + (" " + rest + tail);
        NoTokenInEntry(list[0], i, " " + rest + tail);
      } else if i == |head| {
        assert (LvString(list)[i..] + tail)[0] == ' ';
      } else {
        assert LvString(list)[i..] == rest[i - |head| - 1..];
        NoTokenInList(list[1..], i - |head| - 1, tail);
      }
    }
  }

  // ---------------------------------------------------------------- the rewritten text starts as the text does

  lemma {:induction false} LvStringStart(list: seq<string>)
    ensures if list == [] then LvString(list) == "" else EntryAt(LvString(list))
  {
    assert "rd.lvm.lv=" == ['r', 'd', '.', 'l', 'v', 'm', '.', 'l', 'v', '='];
  }

  lemma {:induction false} RunStart(s: string, names: string)
    requires RunAt(s) && (names == "" || EntryAt(names))
    ensures var t := Rewrite(s, names);
      && (names != "" ==> EntryAt(t) && t[0] == 'r' && t[1..][0] == 'd')
      && (names == "" ==> t[0] == ' ')
  {
  }

  lemma {:induction false} RewriteTail(s: string, names: string)
    requires !RunAt(s) && s != ""
    ensures Rewrite(s, names) != "" && Rewrite(s, names)[0] == s[0] && Rewrite(s, names)[1..] == Rewrite(s[1..], names)
  {
  }

  /** The new list does not complete a token that the text before it had only begun. */
  lemma {:induction false} RewriteMakesNoToken(s: string, names: string, k: nat)
    requires k <= 12 && (k == 0 ==> !RunAt(s)) && (names == "" || EntryAt(names))
    requires TokenTailAt(Rewrite(s, names), k)
    ensures TokenTailAt(s, k)
    decreases 12 - k
  {
    if k < 12 {
      if RunAt(s) {
        RunStart(s, names);
      } else {
        RewriteTail(s, names);
        RewriteMakesNoToken(s[1..], names, k + 1);
      }
    }
  }

  lemma {:induction false} TokenAfterRewrite(s: string, list: seq<string>)
    requires !RunAt(s)
    ensures !TokenAt(Rewrite(s, LvString(list)))
  {
    TokenTail(s);
    TokenTail(Rewrite(s, LvString(list)));
    if TokenTailAt(Rewrite(s, LvString(list)), 0) {
      LvStringStart(list);
      RewriteMakesNoToken(s, LvString(list), 0);
    }
  }

  lemma {:induction false} DropNothing(s: string)
    requires forall i :: 0 <= i < |s| ==> !TokenAt(s[i..])
    ensures DropTokens(s) == s
  {
    if s != "" {
      assert s[0..] == s;
      assert forall i :: 0 <= i < |s| - 1 ==> s[1..][i..] == s[i + 1..];
      DropNothing(s[1..]);
    }
  }

  lemma {:induction false} NoTokenLeft(s: string, list: seq<string>, i: nat)
    requires CleanList(list) && i < |Rewrite(s, LvString(list))|
    ensures !TokenAt(Rewrite(s, LvString(list))[i..])
    decreases |s|
  {
    var names := LvString(list);
    var t := Rewrite(s, names);
    if RunAt(s) {
      var rest := Rewrite(AfterRun(s), names);
      assert t == names + (" " + rest);
      if i < |names| {
        assert t[i..] == names[i..] + (" " + rest);
        NoTokenInList(list, i, " " + rest);
      } else if i == |names| {
        assert t[i..][0] == ' ';
      } else {
        assert t[i..] == rest[i - |names| - 1..];
        NoTokenLeft(AfterRun(s), list, i - |names| - 1);
      }
    } else if i == 0 {
      TokenAfterRewrite(s, list);
      assert t[0..] == t;
    } else {
      assert t[i..] == Rewrite(s[1..], names)[i - 1..];
      NoTokenLeft(s[1..], list, i - 1);
    }
  }

  /** The three substitutions, one after the other, are the single-pass rewrite. */
  lemma {:induction false} SedIsRewrite(s: string, list: seq<string>)
    requires CleanList(list)
    ensures SedLine(s, LvString(list)) == Rewrite(s, LvString(list))
  {
    ReplacedOnce(s, LvString(list));
    forall i | 0 <= i < |Rewrite(s, LvString(list))| ensures !TokenAt(Rewrite(s, LvString(list))[i..]) {
      NoTokenLeft(s, list, i);
    }
    DropNothing(Rewrite(s, LvString(list)));
  }

  // ---------------------------------------------------------------- last write wins

  predicate PatternChar(k: nat, c: char) {
    match k
    case 0 => c == 'r'
    case 1 => c == 'd'
    case 3 => c == 'l'
    case 4 => c == 'v'
    case 5 => c == 'm'
    case 7 => c == 'l'
    case 8 => c == 'v'
    case 9 => c == '='
    case _ => true
  }

  /** The tail of an entry pattern from its k-th character on. */
  predicate EntryTailAt(s: string, k: nat)
    requires k <= 10
    decreases 10 - k
  {
    k == 10 || (s != "" && PatternChar(k, s[0]) && EntryTailAt(s[1..], k + 1))
  }

  lemma {:induction false} EntryTailFrom(s: string, k: nat)
    requires k <= 10 && k <= |s|
    ensures EntryTailAt(s[k..], k) <==> |s| >= 10 && forall i :: k <= i < 10 ==> PatternChar(i, s[i])
    decreases 10 - k
  {
    if k < 10 && k < |s| {
      assert s[k..][1..] == s[k + 1..] && s[k..][0] == s[k];
      EntryTailFrom(s, k + 1);
    }
  }

  lemma {:induction false} EntryTail(s: string)
    ensures EntryAt(s) <==> EntryTailAt(s, 0)
  {
    assert s[0..] == s;
    EntryTailFrom(s, 0);
    if |s| >= 10 && forall i :: 0 <= i < 10 ==> PatternChar(i, s[i]) {
      assert PatternChar(0, s[0]) && PatternChar(1, s[1]) && PatternChar(3, s[3]) && PatternChar(4, s[4]);
      assert PatternChar(5, s[5]) && PatternChar(7, s[7]) && PatternChar(8, s[8]) && PatternChar(9, s[9]);
    }
  }

  /** The new list does not complete an entry that the text before it had only begun. */
  lemma {:induction false} RewriteMakesNoEntry(s: string, names: string, k: nat)
    requires k <= 10 && (k == 0 ==> !RunAt(s)) && EntryAt(names)
    requires EntryTailAt(Rewrite(s, names), k)
    ensures EntryTailAt(s, k)
    decreases 10 - k
  {
    if k < 10 {
      if RunAt(s) {
        RunStart(s, names);
      } else {
        if s != "" {
          RewriteTail(s, names);
          RewriteMakesNoEntry(s[1..], names, k + 1);
        }
      }
    }
  }

  /** A run starts in the rewritten text exactly where one started in the text. */
  lemma {:induction false} RunAfterRewrite(s: string, list: seq<string>)
    requires list != []
    ensures RunAt(Rewrite(s, LvString(list))) <==> RunAt(s)
  {
    var t := Rewrite(s, LvString(list));
    LvStringStart(list);
    if RunAt(s) {
      RunStart(s, LvString(list));
    } else {
      TokenAfterRewrite(s, list);
      EntryTail(t);
      EntryTail(s);
      if EntryTailAt(t, 0) {
        RewriteMakesNoEntry(s, LvString(list), 0);
      }
    }
  }

  lemma {:induction false} AfterWordSkips(w: string, t: string)
    requires (forall i :: 0 <= i < |w| ==> w[i] != ' ') && (t == "" || t[0] == ' ')
    ensures AfterWord(w + t) == t
  {
    if w == "" {
      assert w + t == t;
    } else {
      assert (w + t)[1..] == w[1..] + t;
      AfterWordSkips(w[1..], t);
    }
  }

  lemma {:induction false} EntryStart(name: string, t: string)
    ensures EntryAt(Entry(name) + t) && (Entry(name) + t)[10..] == name + t
  {
    assert "rd.lvm.lv=" == ['r', 'd', '.', 'l', 'v', 'm', '.', 'l', 'v', '='];
  }

  /** An entry and the blank after it belong to the run that goes on after them. */
  lemma {:induction false} EntryJoinsRun(name: string, t: string)
    requires (forall i :: 0 <= i < |name| ==> name[i] != ' ') && (t == "" || t[0] != ' ')
    ensures AfterRun(Entry(name) + (" " + t)) == AfterRun(t)
  {
    EntryStart(name, " " + t);
    AfterWordSkips(name, " " + t);
    assert (" " + t)[1..] == t;
    assert AfterBlanks(" " + t) == t;
  }

  lemma {:induction false} RegroupList(a: string, b: string, t: string)
    ensures (a + " " + b) + " " + t == a + (" " + (b + " " + t))
  {
  }

  /** The new list and its trailing blank form one run. */
  lemma {:induction false} ListIsOneRun(list: seq<string>, t: string)
    requires list != [] && CleanList(list)
    requires !RunAt(t) && (t == "" || t[0] != ' ')
    ensures AfterRun(LvString(list) + " " + t) == t
  {
    if |list| == 1 {
      assert LvString(list) + " " + t == Entry(list[0]) + (" " + t);
      EntryJoinsRun(list[0], t);
    } else {
      RegroupList(Entry(list[0]), LvString(list[1..]), t);
      LvStringStart(list[1..]);
      EntryJoinsRun(list[0], LvString(list[1..]) + " " + t);
      ListIsOneRun(list[1..], t);
    }
  }

  lemma {:induction false} RestStaysBlankFree(s: string, list: seq<string>)
    requires list != [] && !RunAt(s) && (s == "" || s[0] != ' ')
    ensures var t := Rewrite(s, LvString(list)); !RunAt(t) && (t == "" || t[0] != ' ')
  {
    RunAfterRewrite(s, list);
  }

  /** Rewriting with one list and then with another is rewriting with the other. */
  lemma {:induction false} LastWriteWins(s: string, list: seq<string>, other: seq<string>)
    requires list != [] && CleanList(list)
    ensures Rewrite(Rewrite(s, LvString(list)), LvString(other)) == Rewrite(s, LvString(other))
    decreases |s|
  {
    var t := Rewrite(s, LvString(list));
    RunAfterRewrite(s, list);
    if RunAt(s) {
      RestStaysBlankFree(AfterRun(s), list);
      ListIsOneRun(list, Rewrite(AfterRun(s), LvString(list)));
      LastWriteWins(AfterRun(s), list, other);
    } else if s != "" {
      assert t[1..] == Rewrite(s[1..], LvString(list));
      LastWriteWins(s[1..], list, other);
    }
  }

  /** The sed command itself: the last list written is the one that stays, on every line of every file. */
  lemma {:induction false} SedLastWriteWins(lines: seq<string>, list: seq<string>, other: seq<string>)
    requires list != [] && CleanList(list) && CleanList(other)
    ensures SedFile(SedFile(lines, LvString(list)), LvString(other)) == SedFile(lines, LvString(other))
  {
    forall i | 0 <= i < |lines|
      ensures SedLine(SedLine(lines[i], LvString(list)), LvString(other)) == SedLine(lines[i], LvString(other))
    {
      SedIsRewrite(lines[i], list);
      SedIsRewrite(lines[i], other);
      SedIsRewrite(SedLine(lines[i], LvString(list)), other);
      LastWriteWins(lines[i], list, other);
    }
  }

  // ---------------------------------------------------------------- the text around the entries

  function Weave(pieces: seq<string>, separator: string): string
    requires pieces != []
  {
    if |pieces| == 1 then pieces[0] else pieces[0] + separator + Weave(pieces[1..], separator)
  }

  lemma {:induction false} WeaveFirst(c: char, pieces: seq<string>, separator: string)
    requires pieces != []
    ensures Weave([[c] + pieces[0]] + pieces[1..], separator) == [c] + Weave(pieces, separator)
    ensures Weave([""] + pieces, separator) == separator + Weave(pieces, separator)
  {
    assert ([[c] + pieces[0]] + pieces[1..])[1..] == pieces[1..];
    assert ([""] + pieces)[1..] == pieces;
    assert "" + separator == separator;
  }

  /** The rewritten line is the text outside the runs, with the list and one blank for each run. */
  lemma {:induction false} RewriteWeaves(s: string, names: string)
    ensures Rewrite(s, names) == Weave(Outside(s), names + " ")
    decreases |s|
  {
    if s != "" {
      if RunAt(s) {
        RewriteWeaves(AfterRun(s), names);
        WeaveFirst(' ', Outside(AfterRun(s)), names + " ");
      } else {
        RewriteWeaves(s[1..], names);
        WeaveFirst(s[0], Outside(s[1..]), names + " ");
      }
    }
  }

  /** No rewrite changes the text outside the runs. */
  lemma {:induction false} OutsideKept(s: string, list: seq<string>)
    requires list != [] && CleanList(list)
    ensures Outside(Rewrite(s, LvString(list))) == Outside(s)
    decreases |s|
  {
    var t := Rewrite(s, LvString(list));
    RunAfterRewrite(s, list);
    if RunAt(s) {
      RestStaysBlankFree(AfterRun(s), list);
      ListIsOneRun(list, Rewrite(AfterRun(s), LvString(list)));
      OutsideKept(AfterRun(s), list);
    } else if s != "" {
      assert t[1..] == Rewrite(s[1..], LvString(list));
      OutsideKept(s[1..], list);
    }
  }

  /** An entry without a blank after it takes the rest of the line with it, a closing quote included. */
  lemma {:induction false} EntryTakesRestOfLine(s: string, names: string)
    requires EntryAt(s) && forall i :: 10 <= i < |s| ==> s[i] != ' '
    ensures Rewrite(s, names) == names + " "
  {
    assert s[10..] + "" == s[10..];
    AfterWordSkips(s[10..], "");
    assert AfterRun(s) == "";
    assert Rewrite("", names) == "";
  }

  lemma {:induction false} BlankKept(names: string)
    ensures Rewrite(" ", names) == " "
  {
    assert Rewrite("", names) == "";
  }

  /** Written with an empty list, an entry that ends its line is lost for good: no later list finds its place. */
  lemma {:induction false} EmptyListLosesEntry(s: string, list: seq<string>)
    requires EntryAt(s) && (forall i :: 10 <= i < |s| ==> s[i] != ' ') && list != []
    ensures Rewrite(Rewrite(s, LvString([])), LvString(list)) == " "
    ensures Rewrite(s, LvString(list)) == LvString(list) + " "
  {
    EntryTakesRestOfLine(s, "");
    EntryTakesRestOfLine(s, LvString(list));
    BlankKept(LvString(list));
  }

  ghost predicate HasRun(s: string) {
    exists i :: 0 <= i < |s| && RunAt(s[i..])
  }

  lemma {:induction false} HasRunTail(s: string)
    requires s != ""
    ensures HasRun(s) <==> RunAt(s) || HasRun(s[1..])
  {
    assert s[0..] == s;
    if i :| 0 <= i < |s| - 1 && RunAt(s[1..][i..]) {
      assert s[1..][i..] == s[i + 1..];
    }
    if i :| 0 < i < |s| && RunAt(s[i..]) {
      assert s[1..][i - 1..] == s[i..];
    }
  }

  lemma {:induction false} NoRunUnchanged(s: string, names: string)
    requires !HasRun(s)
    ensures Rewrite(s, names) == s
  {
    if s != "" {
      HasRunTail(s);
      NoRunUnchanged(s[1..], names);
    }
  }

  /** The blank left behind may complete an entry, but never where one was. */
  lemma {:induction false} RunIsLost(s: string, list: seq<string>)
    requires list != [] && HasRun(s)
    ensures Rewrite(Rewrite(s, ""), LvString(list)) != Rewrite(s, LvString(list))
  {
    var t := Rewrite(s, "");
    HasRunTail(s);
    LvStringStart(list);
    RunAfterRewrite(s, list);
    if RunAt(s) {
      RunStart(s, "");
      RunStart(s, LvString(list));
    } else {
      RewriteTail(s, "");
      RewriteTail(s, LvString(list));
      if RunAt(t) {
        RunStart(t, LvString(list));
      } else {
        RewriteTail(t, LvString(list));
        RunIsLost(s[1..], list);
      }
    }
  }

  /** The last list written does not stay after an empty one, unless there was nothing to replace. */
  lemma {:induction false} SedEmptyListIsExact(lines: seq<string>, list: seq<string>)
    requires list != [] && CleanList(list)
    ensures SedFile(SedFile(lines, LvString([])), LvString(list)) == SedFile(lines, LvString(list)) <==>
      forall i :: 0 <= i < |lines| ==> !HasRun(lines[i])
  {
    var once, twice := SedFile(lines, LvString(list)), SedFile(SedFile(lines, LvString([])), LvString(list));
    forall i | 0 <= i < |lines| ensures twice[i] == once[i] <==> !HasRun(lines[i]) {
      SedIsRewrite(lines[i], list);
      SedIsRewrite(lines[i], []);
      SedIsRewrite(SedLine(lines[i], LvString([])), list);
      if HasRun(lines[i]) {
        RunIsLost(lines[i], list);
      } else {
        NoRunUnchanged(lines[i], "");
      }
    }
  }
}
