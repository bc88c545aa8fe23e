/**
 * The scenario translator: moves every aircraft of a scenario file by a
 * fixed offset by rewriting the coordinate tokens of its CRE, ATDIST and
 * ADDWAYPOINTS commands. Lines keep their nine-character time stamp; all
 * other lines are copied unchanged.
 */
module ScenarioTranslator {
  import opened Wrappers
  import opened PyText

  /**
   * `translate_data(lat, lon)`: projects a coordinate pair, shifts it and
   * projects it back, answering the new pair as strings; `None` when a token
   * does not parse as a float.
   */
  type Translate = (string, string) -> Option<(string, string)>

  /** The commands whose coordinates are rewritten. */
  predicate Listed(name: string)
  {
    name == "CRE" || name == "ADDWAYPOINTS" || name == "ATDIST"
  }

  /** No token holds the separator, as every token of `cmd.split(' ')`. */
  predicate Spaceless(ts: seq<string>)
  {
    forall i :: 0 <= i < |ts| ==> ' ' !in ts[i]
  }

  /** The translation writes floats, which never hold a space. */
  ghost predicate SpacelessTranslate(tr: Translate)
  {
    forall a, b :: tr(a, b).Some? ==> ' ' !in tr(a, b).value.0 && ' ' !in tr(a, b).value.1
  }

  /** `cmd[i:i+2] = translate_data(*cmd[i:i+2])`. */
  function ReplacePair(t: seq<string>, i: nat, tr: Translate): (r: Option<seq<string>>)
    requires i + 2 <= |t|
    ensures r.Some? <==> tr(t[i], t[i + 1]).Some?
    ensures r.Some? ==> |r.value| == |t|
    ensures r.Some? ==> r.value[i] == tr(t[i], t[i + 1]).value.0 && r.value[i + 1] == tr(t[i], t[i + 1]).value.1
    ensures r.Some? ==> forall j :: 0 <= j < |t| && j != i && j != i + 1 ==> r.value[j] == t[j]
  {
    match tr(t[i], t[i + 1])
    case None => None
    case Some(p) => Some(t[i := p.0][i + 1 := p.1])
  }

  /**
   * `CRE acid type lat lon hdg spd alt`: tokens 3 and 4 are translated and
   * nothing else changes; fewer than five tokens give `translate_data` too
   * few arguments, which raises.
   */
  function CreTokens(t: seq<string>, tr: Translate): (r: Option<seq<string>>)
    ensures r.Some? <==> |t| >= 5 && tr(t[3], t[4]).Some?
    ensures r.Some? ==> |r.value| == |t|
    ensures r.Some? ==> r.value[3] == tr(t[3], t[4]).value.0 && r.value[4] == tr(t[3], t[4]).value.1
    ensures r.Some? ==> forall j :: 0 <= j < |t| && j != 3 && j != 4 ==> r.value[j] == t[j]
  {
    if |t| < 5 then None else ReplacePair(t, 3, tr)
  }

  /**
   * The pairs (token j, token j + 1) with j = 2 (mod 6) and j + 1 < m
   * translated, every other token kept: the first pairs that
   * `zip(cmd[2::6], cmd[3::6])` forms.
   */
  function TranslatedBelow(t: seq<string>, tr: Translate, m: nat): (r: Option<seq<string>>)
    requires m <= |t|
    ensures r.Some? ==> |r.value| == |t|
  {
    if m == 0 then Some(t)
    else match TranslatedBelow(t, tr, m - 1)
      case None => None
      case Some(u) =>
        if (m - 1) % 6 == 3 then
          match tr(t[m - 2], t[m - 1])
          case None => None
          case Some(p) => Some(u[m - 2 := p.0][m - 1 := p.1])
        else Some(u)
  }

  /** The first m tokens translate exactly when each of their pairs does. */
  lemma {:induction false} TranslatedBelowSome(t: seq<string>, tr: Translate, m: nat)
    requires m <= |t|
    ensures TranslatedBelow(t, tr, m).Some? <==>
              forall j :: 0 <= j && j + 1 < m && j % 6 == 2 ==> tr(t[j], t[j + 1]).Some?
  {
    if m > 0 {
      TranslatedBelowSome(t, tr, m - 1);
      if (m - 1) % 6 == 3 {
        assert m >= 2 && (m - 2) % 6 == 2;
      }
    }
  }

  /** Every token outside the first m tokens' pairs is kept. */
  lemma {:induction false} TranslatedBelowKept(t: seq<string>, tr: Translate, m: nat)
    requires m <= |t| && TranslatedBelow(t, tr, m).Some?
    ensures var r := TranslatedBelow(t, tr, m).value;
            forall j :: 0 <= j < |t| && !(j % 6 == 2 && j + 1 < m) && !(j % 6 == 3 && j < m) ==> r[j] == t[j]
  {
    if m > 0 {
      TranslatedBelowKept(t, tr, m - 1);
    }
  }

  /** Each pair among the first m tokens is replaced by its translation. */
  lemma {:induction false} TranslatedBelowPairs(t: seq<string>, tr: Translate, m: nat)
    requires m <= |t| && TranslatedBelow(t, tr, m).Some?
    ensures var r := TranslatedBelow(t, tr, m).value;
            forall j :: 0 <= j && j + 1 < m && j % 6 == 2 ==>
              tr(t[j], t[j + 1]).Some? && r[j] == tr(t[j], t[j + 1]).value.0 && r[j + 1] == tr(t[j], t[j + 1]).value.1
  {
    if m > 0 {
      TranslatedBelowPairs(t, tr, m - 1);
      var u := TranslatedBelow(t, tr, m - 1).value;
      var r := TranslatedBelow(t, tr, m).value;
      forall j | 0 <= j && j + 1 < m && j % 6 == 2
        ensures tr(t[j], t[j + 1]).Some? && r[j] == tr(t[j], t[j + 1]).value.0 && r[j + 1] == tr(t[j], t[j + 1]).value.1
      {
        LongitudeAfterLatitude(j);
        if j + 1 == m - 1 {
          var p := tr(t[m - 2], t[m - 1]).value;
          assert r == u[m - 2 := p.0][m - 1 := p.1];
        } else if (m - 1) % 6 == 3 {
          var p := tr(t[m - 2], t[m - 1]).value;
          assert r == u[m - 2 := p.0][m - 1 := p.1];
          assert j + 1 < m - 2 by { NoPairOverlap(j, m - 2); }
        } else {
          assert r == u;
        }
      }
    }
  }

  /** The token after a latitude is a longitude. */
  lemma LongitudeAfterLatitude(j: nat)
    requires j % 6 == 2
    ensures (j + 1) % 6 == 3
  {
  }

  /** Two latitude indices are at least six apart. */
  lemma NoPairOverlap(j: nat, k: nat)
    requires j % 6 == 2 && k % 6 == 2 && j < k
    ensures j + 6 <= k
  {
  }

  /** Translated pairs of spaceless tokens stay spaceless. */
  lemma TranslatedBelowSpaceless(t: seq<string>, tr: Translate, m: nat)
    requires m <= |t|
    ensures TranslatedBelow(t, tr, m).Some? && Spaceless(t) && SpacelessTranslate(tr) ==>
              Spaceless(TranslatedBelow(t, tr, m).value)
  {
    if TranslatedBelow(t, tr, m).Some? && Spaceless(t) && SpacelessTranslate(tr) {
      TranslatedBelowKept(t, tr, m);
      TranslatedBelowPairs(t, tr, m);
      var r := TranslatedBelow(t, tr, m).value;
      forall j | 0 <= j < |r|
        ensures ' ' !in r[j]
      {
        if j % 6 == 2 && j + 1 < m {
          assert r[j] == tr(t[j], t[j + 1]).value.0;
        } else if j % 6 == 3 && j < m {
          assert (j - 1) % 6 == 2;
          assert r[j] == tr(t[j - 1], t[j]).value.1;
        } else {
          assert r[j] == t[j];
        }
      }
    }
  }

  /**
   * `ADDWAYPOINTS acid (lat lon alt spd type turnspd)*`: every latitude
   * (index 2 mod 6) and the longitude after it are translated and nothing
   * else changes. A trailing latitude without a longitude makes the
   * extended-slice assignment one element short, which raises.
   */
  function AddWaypointsTokens(t: seq<string>, tr: Translate): (r: Option<seq<string>>)
    ensures r.Some? ==> |r.value| == |t|
    ensures r.Some? && Spaceless(t) && SpacelessTranslate(tr) ==> Spaceless(r.value)
  {
    TranslatedBelowSpaceless(t, tr, |t|);
    if |t| % 6 == 3 then None else TranslatedBelow(t, tr, |t|)
  }

  /**
   * An ADDWAYPOINTS command translates exactly when no latitude lacks its
   * longitude and every pair translates; each latitude and the longitude
   * after it are then translated and every other token is kept.
   */
  lemma AddWaypointsTokensMeaning(t: seq<string>, tr: Translate)
    ensures var r := AddWaypointsTokens(t, tr);
            && (r.Some? <==> |t| % 6 != 3 && forall j :: 0 <= j && j + 1 < |t| && j % 6 == 2 ==> tr(t[j], t[j + 1]).Some?)
            && (r.Some? ==> forall j :: 0 <= j < |t| && j % 6 != 2 && j % 6 != 3 ==> r.value[j] == t[j])
            && (r.Some? ==> forall j :: 0 <= j < |t| && j % 6 == 2 ==>
                              && j + 1 < |t| && tr(t[j], t[j + 1]).Some?
                              && r.value[j] == tr(t[j], t[j + 1]).value.0
                              && r.value[j + 1] == tr(t[j], t[j + 1]).value.1)
  {
    TranslatedBelowSome(t, tr, |t|);
    if AddWaypointsTokens(t, tr).Some? {
      TranslatedBelowKept(t, tr, |t|);
      TranslatedBelowPairs(t, tr, |t|);
      forall j | 0 <= j < |t| && j % 6 == 2
        ensures j + 1 < |t|
      {
        LatitudeHasLongitude(j, |t|);
      }
    }
  }

  /** Without a trailing latitude, every latitude index has a longitude after it. */
  lemma LatitudeHasLongitude(j: nat, n: nat)
    requires j < n && j % 6 == 2 && n % 6 != 3
    ensures j + 1 < n
  {
  }

  /**
   * The token list of a command once its coordinates are translated. For
   * ATDIST acid lat lon dist cmd...: tokens 2 and 3 are translated, the
   * distance is kept, and the command from token 5 on is translated in turn
   * and kept as its tokens, as evidently intended (CmdTranslatorAsWritten
   * splices its characters); fewer than six tokens raise (the nested command
   * is empty).
   */
  function CmdTokens(t: seq<string>, tr: Translate): (r: Option<seq<string>>)
    ensures t != [] && !Listed(t[0]) ==> r == Some(t)
    ensures r.Some? ==> |r.value| == |t| && t != [] && r.value[0] == t[0]
    ensures t != [] && t[0] == "ATDIST" ==>
              && (r.Some? <==> |t| >= 6 && tr(t[2], t[3]).Some? && CmdTokens(t[5..], tr).Some?)
              && (r.Some? ==>
                    && r.value[1] == t[1] && r.value[4] == t[4]
                    && r.value[2] == tr(t[2], t[3]).value.0 && r.value[3] == tr(t[2], t[3]).value.1
                    && r.value[5..] == CmdTokens(t[5..], tr).value)
    ensures r.Some? && Spaceless(t) && SpacelessTranslate(tr) ==> Spaceless(r.value)
    decreases |t|
  {
    if t == [] then None
    else if !Listed(t[0]) then Some(t)
    else if t[0] == "CRE" then CreTokens(t, tr)
    else if t[0] == "ADDWAYPOINTS" then AddWaypointsTokensMeaning(t, tr); AddWaypointsTokens(t, tr)
    else if |t| < 6 then None
    else match ReplacePair(t, 2, tr)
      case None => None
      case Some(u) =>
        match CmdTokens(t[5..], tr)
        case None => None
        case Some(rest) => Some(u[..5] + rest)
  }

  /** What `cmd_translator` answers: the token list itself, or the joined command. */
  datatype Outcome = Tokens(tokens: seq<string>) | Joined(text: string)

  /** The command an outcome stands for, as text. */
  function Text(o: Outcome): string
  {
    match o
    case Tokens(ts) => Join(ts, ' ')
    case Joined(s) => s
  }

  /**
   * `cmd_translator(cmd_split)`: an unlisted command answers its own token
   * list; a listed one answers its translated tokens joined by spaces, a
   * nested ATDIST command taking its place as a whole, as evidently intended
   * (CmdTranslatorAsWritten is the character splice of the code).
   */
  function CmdTranslator(t: seq<string>, tr: Translate): (r: Option<Outcome>)
    ensures t == [] ==> r.None?
    ensures t != [] && !Listed(t[0]) ==> r == Some(Tokens(t))
    ensures t != [] && Listed(t[0]) ==> (r.Some? <==> CmdTokens(t, tr).Some?) && (r.Some? ==> r.value.Joined?)
  {
    if t == [] then None
    else if !Listed(t[0]) then Some(Tokens(t))
    else match CmdTokens(t, tr)
      case None => None
      case Some(u) => Some(Joined(Join(u, ' ')))
  }

  /**
   * Splitting a translated command at its spaces gives back its translated
   * tokens: the joined text loses nothing.
   */
  lemma TranslatorRoundTrip(t: seq<string>, tr: Translate)
    requires t != [] && Listed(t[0]) && Spaceless(t) && SpacelessTranslate(tr)
    ensures CmdTranslator(t, tr).Some? ==> Split(CmdTranslator(t, tr).value.text, ' ') == CmdTokens(t, tr).value
  {
    if CmdTokens(t, tr).Some? {
      SplitJoin(CmdTokens(t, tr).value, ' ');
    }
  }

  /** Joining two non-empty token lists puts one separator between their texts. */
  lemma {:induction false} JoinAppend(a: seq<string>, b: seq<string>, sep: char)
    requires a != [] && b != []
    ensures Join(a + b, sep) == Join(a, sep) + [sep] + Join(b, sep)
    decreases |a|
  {
    if |a| == 1 {
      assert (a + b)[1..] == b;
    } else {
      assert (a + b)[1..] == a[1..] + b;
      JoinAppend(a[1..], b, sep);
    }
  }

  /**
   * A translated ATDIST command is its first five tokens, a space, and the
   * text of its translated nested command, whatever that command is.
   */
  lemma NestedCommandKept(t: seq<string>, tr: Translate)
    requires t != [] && t[0] == "ATDIST"
    ensures var r := CmdTranslator(t, tr);
            r.Some? ==> && ReplacePair(t, 2, tr).Some? && CmdTranslator(t[5..], tr).Some?
                        && r.value.text == Join(ReplacePair(t, 2, tr).value[..5], ' ') + " "
                                           + Text(CmdTranslator(t[5..], tr).value)
  {
    if CmdTranslator(t, tr).Some? {
      var u := ReplacePair(t, 2, tr).value;
      var rest := CmdTokens(t[5..], tr).value;
      assert CmdTokens(t, tr).value == u[..5] + rest;
      JoinAppend(u[..5], rest, ' ');
    }
  }

  /** A string as the list of its one-character strings, as `lst[a:] = s` splices it. */
  function Chars(s: string): (r: seq<string>)
    ensures |r| == |s|
  {
    seq(|s|, i requires 0 <= i < |s| => [s[i]])
  }

  /**
   * `cmd_translator` as written: the translated nested command of an ATDIST
   * comes back as a string, and the slice assignment `cmd_split[5:] = ...`
   * splices that string into the token list one character per token.
   */
  function CmdTranslatorAsWritten(t: seq<string>, tr: Translate): (r: Option<Outcome>)
    ensures r.Some? <==> CmdTranslator(t, tr).Some?
    ensures r.Some? && (t[0] != "ATDIST" || !Listed(t[5])) ==> r == CmdTranslator(t, tr)
    ensures r.Some? && Listed(t[0]) ==> r.value.Joined? && |r.value.text| >= |t[0]| && r.value.text[..|t[0]|] == t[0]
    decreases |t|
  {
    if t == [] then None
    else if !Listed(t[0]) then Some(Tokens(t))
    else if t[0] == "CRE" then
      match CreTokens(t, tr)
      case None => None
      case Some(u) => Some(Joined(Join(u, ' ')))
    else if t[0] == "ADDWAYPOINTS" then
      match AddWaypointsTokens(t, tr)
      case None => None
      case Some(u) => Some(Joined(Join(u, ' ')))
    else if |t| < 6 then None
    else match ReplacePair(t, 2, tr)
      case None => None
      case Some(u) =>
        match CmdTranslatorAsWritten(t[5..], tr)
        case None => None
        case Some(Tokens(rest)) => Some(Joined(Join(u[..5] + rest, ' ')))
        case Some(Joined(s)) => Some(Joined(Join(u[..5] + Chars(s), ' ')))
  }

  /**
   * As written, an ATDIST command whose nested command is itself translated
   * comes out different from the command it should be: right after the
   * first character of the nested command stands a space.
   */
  lemma NestedCommandSpliced(t: seq<string>, tr: Translate)
    requires |t| >= 6 && t[0] == "ATDIST" && Listed(t[5])
    requires CmdTranslator(t, tr).Some?
    ensures CmdTranslatorAsWritten(t, tr).Some?
    ensures var w := CmdTranslatorAsWritten(t, tr).value.text;
            var c := CmdTranslator(t, tr).value.text;
            var n := |Join(CmdTokens(t, tr).value[..5], ' ')|;
            && |w| > n + 2 && |c| > n + 2
            && w[n + 2] == ' ' && c[n + 2] == t[5][1] != ' '
            && w != c
  {
    CorrectedAt(t, tr);
    AsWrittenAt(t, tr);
    ListedName(t[5]);
  }

  /** Every listed command name has a letter, not a space, as its second character. */
  lemma ListedName(name: string)
    requires Listed(name)
    ensures |name| >= 3 && name[1] != ' '
  {
    if name == "CRE" {
      assert name[1] == 'R';
    } else if name == "ATDIST" {
      assert name[1] == 'T';
    } else {
      assert name[1] == 'D';
    }
  }

  /** Corrected, the character after the nested command's first one is its second. */
  lemma CorrectedAt(t: seq<string>, tr: Translate)
    requires |t| >= 6 && t[0] == "ATDIST" && Listed(t[5])
    requires CmdTranslator(t, tr).Some?
    ensures var c := CmdTranslator(t, tr).value.text;
            var n := |Join(CmdTokens(t, tr).value[..5], ' ')|;
            |c| > n + 2 && c[n + 2] == t[5][1]
  {
    var u := ReplacePair(t, 2, tr).value;
    var h := Join(u[..5], ' ');
    AtdistHead(t, tr);
    NestedCommandKept(t, tr);
    var c' := CmdTranslator(t[5..], tr).value.text;
    assert c'[..|t[5]|] == t[5] by {
      assert CmdTokens(t[5..], tr).value[0] == t[5];
    }
  }

  /** The first five tokens of a translated ATDIST command: the pair translated, the rest kept. */
  lemma AtdistHead(t: seq<string>, tr: Translate)
    requires |t| >= 6 && t[0] == "ATDIST"
    ensures CmdTokens(t, tr).Some? ==>
              ReplacePair(t, 2, tr).Some? && CmdTokens(t, tr).value[..5] == ReplacePair(t, 2, tr).value[..5]
  {
    assert |t[0]| == 6;
  }

  /** As written, the character after the nested command's first one is a space. */
  lemma AsWrittenAt(t: seq<string>, tr: Translate)
    requires |t| >= 6 && t[0] == "ATDIST" && Listed(t[5])
    requires CmdTranslatorAsWritten(t, tr).Some?
    ensures var w := CmdTranslatorAsWritten(t, tr).value.text;
            var n := |Join(CmdTokens(t, tr).value[..5], ' ')|;
            |w| > n + 2 && w[n + 2] == ' '
  {
    AsWrittenSplices(t, tr);
    AtdistHead(t, tr);
    assert t[5..][0] == t[5];
    ListedName(t[5]);
    var s := CmdTranslatorAsWritten(t[5..], tr).value.text;
    assert |s| >= |t[5]|;
    var h := ReplacePair(t, 2, tr).value[..5];
    SplicedSpace(h, s);
    var w := CmdTranslatorAsWritten(t, tr).value.text;
    assert w == Join(h + Chars(s), ' ');
    assert |Join(CmdTokens(t, tr).value[..5], ' ')| == |Join(h, ' ')|;
  }

  /** Spliced in as characters, a text of two or more characters has a space after its first one. */
  lemma SplicedSpace(h: seq<string>, s: string)
    requires h != [] && |s| >= 2
    ensures var w := Join(h + Chars(s), ' ');
            var n := |Join(h, ' ')|;
            |w| > n + 2 && w[n + 2] == ' '
  {
    var cs := Chars(s);
    assert |cs[0]| == 1;
    JoinAppend(h, cs, ' ');
    assert Join(cs, ' ')[1] == ' ';
  }

  /** As written, a translated nested command is spliced in as its characters. */
  lemma AsWrittenSplices(t: seq<string>, tr: Translate)
    requires |t| >= 6 && t[0] == "ATDIST" && Listed(t[5])
    requires CmdTranslatorAsWritten(t, tr).Some?
    ensures ReplacePair(t, 2, tr).Some? && CmdTranslatorAsWritten(t[5..], tr).Some?
    ensures CmdTranslatorAsWritten(t, tr).value.text
            == Join(ReplacePair(t, 2, tr).value[..5] + Chars(CmdTranslatorAsWritten(t[5..], tr).value.text), ' ')
  {
    assert |t[0]| == 6;
    assert t[5..][0] == t[5];
    var inner := CmdTranslatorAsWritten(t[5..], tr);
    assert inner.Some? ==> inner.value.Joined?;
  }

  /** Where a line's command starts: after the nine-character time stamp `hh:mm:ss>`. */
  function StampLength(line: string): (n: nat)
    ensures n <= |line| && (|line| >= 9 ==> n == 9)
  {
    if |line| < 9 then |line| else 9
  }

  /**
   * One line of the scenario: a listed command is translated, by the
   * intended CmdTranslator, behind the line's own time stamp; any other line
   * is kept as it is.
   */
  function TranslateLine(line: string, tr: Translate): (r: Option<string>)
    ensures r.Some? ==> |r.value| >= StampLength(line) && r.value[..StampLength(line)] == line[..StampLength(line)]
    ensures !Listed(Split(line[StampLength(line)..], ' ')[0]) ==> r == Some(line)
  {
    var n := StampLength(line);
    var cmdSplit := Split(line[n..], ' ');
    if !Listed(cmdSplit[0]) then Some(line)
    else match CmdTranslator(cmdSplit, tr)
      case Some(Joined(s)) => Some(line[..n] + s)
      case _ => None
  }

  /**
   * A translated line is its time stamp followed by the translated tokens of
   * its command, and it exists exactly when the tokens translate.
   */
  lemma TranslateLineTokens(line: string, tr: Translate)
    requires SpacelessTranslate(tr)
    ensures var n := StampLength(line);
            var cmdSplit := Split(line[n..], ' ');
            && (TranslateLine(line, tr).Some? <==> CmdTokens(cmdSplit, tr).Some?)
            && (TranslateLine(line, tr).Some? ==>
                  Split(TranslateLine(line, tr).value[n..], ' ') == CmdTokens(cmdSplit, tr).value)
  {
    var n := StampLength(line);
    var cmdSplit := Split(line[n..], ' ');
    if Listed(cmdSplit[0]) {
      TranslatorRoundTrip(cmdSplit, tr);
      if TranslateLine(line, tr).Some? {
        assert TranslateLine(line, tr).value[n..] == CmdTranslator(cmdSplit, tr).value.text;
      }
    } else {
      JoinSplit(line[n..], ' ');
    }
  }

  /**
   * The script's loop over the lines of the scenario, each line translated
   * by the intended TranslateLine: one output line per input line, or
   * nothing when a line raises.
   */
  method TranslateScenario(data: seq<string>, tr: Translate) returns (r: Option<seq<string>>)
    ensures r.Some? <==> forall k :: 0 <= k < |data| ==> TranslateLine(data[k], tr).Some?
    ensures r.Some? ==> |r.value| == |data| && forall k :: 0 <= k < |data| ==> r.value[k] == TranslateLine(data[k], tr).value
  {
    var lineNew: seq<string> := [];
    var i := 0;
    while i < |data|
      invariant 0 <= i <= |data|
      invariant |lineNew| == i
      invariant forall k :: 0 <= k < i ==> TranslateLine(data[k], tr).Some? && lineNew[k] == TranslateLine(data[k], tr).value
    {
      var t := TranslateLine(data[i], tr);
      if t.None? {
        return None;
      }
      lineNew := lineNew + [t.value];
      i := i + 1;
    }
    r := Some(lineNew);
  }
}
