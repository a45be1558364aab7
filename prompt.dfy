/** The prompt program itself: whether `git status --porcelain` reports
    uncommitted files, and the two banners printed before the shell's cue (the
    branch bubble, with a gift medallion when there is uncommitted work, and
    the breadcrumb of the working directory). */
module Prompt {
  import opened Text
  import opened Stream
  import opened Terminal
  import Git

  // ---------------------------------------------------------------------------
  // Uncommitted files

  /** A line of `git status --porcelain` that reports a change to tracked
      files: not empty, and not an untracked entry (`?? path`). */
  predicate IsChange(line: string) {
    line != "" && line[0] != '?'
  }

  /** Some line reports a change to tracked files. */
  predicate HasChange(lines: seq<string>) {
    exists line :: line in lines && IsChange(line)
  }

  /** Some line of the output reports a change to tracked files. */
  predicate HasUncommittedChange(text: string) {
    HasChange(Split(text, '\n'))
  }

  /** The extra empty line that the read loop sees after unterminated output
      reports no change, so the loop finds a change exactly when some line of
      the output reports one. */
  lemma ReadLinesHaveSameChanges(text: string)
    ensures HasChange(ReadLines(text)) <==> HasUncommittedChange(text)
  {
    var pieces := Split(text, '\n');
    var extra: seq<string> := if text != [] && text[|text| - 1] != '\n' then [""] else [];
    assert ReadLines(text) == pieces + extra;
    if HasChange(ReadLines(text)) {
      var line :| line in pieces + extra && IsChange(line);
      assert line !in extra;
      assert line in pieces;
    }
    if HasUncommittedChange(text) {
      var line :| line in pieces && IsChange(line);
      assert line in pieces + extra;
    }
  }

  /** Reads the lines with `std::getline` while the stream converts to `true`
      and answers at the first line that reports a change. */
  method AreThereUncommittedFiles(text: string) returns (uncommitted: bool)
    ensures uncommitted <==> HasUncommittedChange(text)
  {
    var pos: nat := 0;
    var good := true;
    ghost var read := ReadLines(text);
    ghost var seen: seq<string> := [];
    ReadLinesHaveSameChanges(text);
    while good
      invariant pos <= |text|
      invariant good ==> seen + ReadLines(text[pos..]) == read
      invariant !good ==> seen == read
      invariant forall line :: line in seen ==> !IsChange(line)
      decreases |text| - pos + (if good then 1 else 0)
    {
      var line;
      line, pos, good := GetLine(text, pos);
      if good {
        ghost var rest := ReadLines(text[pos..]);
        assert (seen + [line]) + rest == seen + ([line] + rest);
      }
      seen := seen + [line];
      if IsChange(line) {
        assert line in read by {
          if good {
            assert read == seen + ReadLines(text[pos..]);
          }
        }
        return true;
      }
    }
    return false;
  }

  /** On output in which no line is empty or a `#` header, the porcelain
      reading above agrees with the porcelain-v2 reading of `Git`: there are
      uncommitted files exactly when the working tree is `Modified`. */
  lemma UncommittedAgreesWithGit(lines: seq<string>)
    requires forall i :: 0 <= i < |lines| ==> lines[i] != "" && lines[i][0] != '#' && '\n' !in lines[i]
    ensures HasUncommittedChange(Terminated(lines)) <==>
            Git.GetWorkingDirectoryStatus(lines) == Git.Modified
  {
    SplitTerminated(lines);
    ChangeAgreesWithGit(lines);
  }

  lemma ChangeAgreesWithGit(lines: seq<string>)
    requires forall i :: 0 <= i < |lines| ==> lines[i] != "" && lines[i][0] != '#'
    ensures HasChange(lines + [""]) <==> Git.GetWorkingDirectoryStatus(lines) == Git.Modified
  {
    var pieces := lines + [""];
    if HasChange(pieces) {
      var line :| line in pieces && IsChange(line);
      var i :| 0 <= i < |pieces| && pieces[i] == line;
      assert i < |lines|;
      assert line == lines[i];
      assert !Git.IsHeaderOrUntracked(line);
    }
    if Git.GetWorkingDirectoryStatus(lines) == Git.Modified {
      var line :| line in lines && !Git.IsHeaderOrUntracked(line);
      var i :| 0 <= i < |lines| && lines[i] == line;
      assert pieces[i] == line;
      assert IsChange(line);
    }
  }

  // ---------------------------------------------------------------------------
  // Palette and symbols

  const BRIGHT := Color(211, 215, 207)
  const NOTIFICATION := Color(239, 41, 41)
  const BRANCH := Color(6, 152, 154)
  const WD := Color(78, 154, 6)

  const CHEVRON_RIGHT_FULL: string := "\U{EE}\U{82}\U{B0}"
  const CHEVRON_RIGHT_LINE: string := "\U{EE}\U{82}\U{B1}"
  const OPENING_BUBBLE: string := "\U{EE}\U{82}\U{B6}"
  const CLOSING_BUBBLE: string := "\U{EE}\U{82}\U{B4}"
  const GIFT: string := "\U{EF}\U{90}\U{B6}"

  /** What the shell shows after the banners. */
  const CUE: string := "\n$ "

  /** The decimal spelling of a one-, two- or three-digit number. */
  lemma SmallDecimalSpelling(n: nat, s: string)
    requires n < 1000
    requires s == if n < 10 then [DigitChar(n)]
                  else if n < 100 then [DigitChar(n / 10), DigitChar(n % 10)]
                  else [DigitChar(n / 100), DigitChar(n / 10 % 10), DigitChar(n % 10)]
    ensures IntToDecimal(n) == s
  {
    if n >= 100 {
      assert NatToDecimal(n / 100) == [DigitChar(n / 100)];
    } else if n >= 10 {
      assert NatToDecimal(n / 10) == [DigitChar(n / 10)];
    }
  }

  // The escapes the palette turns into, channel by channel; they match the
  // ones main.cpp spells out by hand
  // (for instance ESC "[38;2;211;215;207m" for the bright text colour).

  /** The bright colour as a text colour. */
  lemma BrightFore()
    ensures SetTerminalColor(BRIGHT, Fore) == CSI + "38" + ";2;" + "211" + ";" + "215" + ";" + "207" + "m"
  {
    SmallDecimalSpelling(38, "38");
    SmallDecimalSpelling(211, "211");
    SmallDecimalSpelling(215, "215");
    SmallDecimalSpelling(207, "207");
  }

  /** The branch colour as a text colour. */
  lemma BranchFore()
    ensures SetTerminalColor(BRANCH, Fore) == CSI + "38" + ";2;" + "6" + ";" + "152" + ";" + "154" + "m"
  {
    SmallDecimalSpelling(38, "38");
    SmallDecimalSpelling(6, "6");
    SmallDecimalSpelling(152, "152");
    SmallDecimalSpelling(154, "154");
  }

  /** The branch colour as a background colour. */
  lemma BranchBack()
    ensures SetTerminalColor(BRANCH, Back) == CSI + "48" + ";2;" + "6" + ";" + "152" + ";" + "154" + "m"
  {
    SmallDecimalSpelling(48, "48");
    SmallDecimalSpelling(6, "6");
    SmallDecimalSpelling(152, "152");
    SmallDecimalSpelling(154, "154");
  }

  /** The working-directory colour as a text colour. */
  lemma WorkingDirectoryFore()
    ensures SetTerminalColor(WD, Fore) == CSI + "38" + ";2;" + "78" + ";" + "154" + ";" + "6" + "m"
  {
    SmallDecimalSpelling(38, "38");
    SmallDecimalSpelling(78, "78");
    SmallDecimalSpelling(154, "154");
    SmallDecimalSpelling(6, "6");
  }

  /** The working-directory colour as a background colour. */
  lemma WorkingDirectoryBack()
    ensures SetTerminalColor(WD, Back) == CSI + "48" + ";2;" + "78" + ";" + "154" + ";" + "6" + "m"
  {
    SmallDecimalSpelling(48, "48");
    SmallDecimalSpelling(78, "78");
    SmallDecimalSpelling(154, "154");
    SmallDecimalSpelling(6, "6");
  }

  // ---------------------------------------------------------------------------
  // The prompt as drawing pieces

  const DIR_SEPARATOR: seq<Piece> := [Chars(" "), Glyph(CHEVRON_RIGHT_LINE), Chars(" ")]

  /** The directories of the chain, in order, with a separator between neighbours. */
  function Crumbs(chain: seq<string>): (pieces: seq<Piece>)
    requires chain != []
    ensures |pieces| == 4 * |chain| - 3
    decreases |chain|
  {
    if |chain| == 1 then [Chars(chain[0])]
    else Crumbs(chain[..|chain| - 1]) + DIR_SEPARATOR + [Chars(chain[|chain| - 1])]
  }

  /** The working-directory banner; nothing for an empty chain. */
  function WorkingDirectoryPieces(chain: seq<string>): seq<Piece> {
    if chain == [] then []
    else ColorPieces(BRIGHT, WD) + [Chars(" ")] + Crumbs(chain) + [Chars(" ")] + OutPieces(CHEVRON_RIGHT_FULL, WD)
  }

  /** The gift medallion inside the branch bubble. */
  function MedallionPieces(): seq<Piece> {
    InPieces(OPENING_BUBBLE, BRIGHT, NOTIFICATION) + [Chars(" ")] + [Glyph(GIFT)] + [Chars(" ")] +
    OutOntoPieces(CLOSING_BUBBLE, NOTIFICATION, BRIGHT, BRANCH) + [Chars(" ")]
  }

  /** The branch banner and its line break; nothing outside a branch. */
  function BranchPieces(branchName: string, uncommitted: bool): seq<Piece> {
    if branchName == "" then []
    else
      InPieces(OPENING_BUBBLE, BRIGHT, BRANCH) + [Chars(" ")] + [Chars(branchName)] + [Chars(" ")] +
      (if uncommitted then MedallionPieces() else []) +
      OutPieces(CLOSING_BUBBLE, BRANCH) + [Chars("\n")]
  }

  function PromptPieces(branchName: string, uncommitted: bool, chain: seq<string>): seq<Piece> {
    BranchPieces(branchName, uncommitted) + WorkingDirectoryPieces(chain) + [Chars(CUE)]
  }

  // ---------------------------------------------------------------------------
  // What the prompt shows

  /** The breadcrumb reads the chain in order: directory `i` sits at position
      `4 * i`, and the three pieces between neighbours are the separator. */
  lemma {:induction false} CrumbsLayout(chain: seq<string>)
    requires chain != []
    ensures forall j :: 0 <= j < |Crumbs(chain)| ==>
      Crumbs(chain)[j] == if j % 4 == 0 then Chars(chain[j / 4]) else DIR_SEPARATOR[j % 4 - 1]
    decreases |chain|
  {
    var n := |chain|;
    if n > 1 {
      var front := chain[..n - 1];
      CrumbsLayout(front);
      var crumbs := Crumbs(chain);
      var m := 4 * n - 7;
      forall j | 0 <= j < |crumbs|
        ensures crumbs[j] == if j % 4 == 0 then Chars(chain[j / 4]) else DIR_SEPARATOR[j % 4 - 1]
      {
        if j < m {
          assert crumbs[j] == Crumbs(front)[j];
          if j % 4 == 0 {
            assert front[j / 4] == chain[j / 4];
          }
        } else if j < m + 3 {
          assert crumbs[j] == DIR_SEPARATOR[j - m];
          assert j == 4 * (n - 2) + 1 + (j - m);
        } else {
          assert j == 4 * (n - 1);
        }
      }
    }
  }

  /** Directory `i` of the chain is the piece at position `4 * i` of the breadcrumb. */
  lemma CrumbsDirectories(chain: seq<string>)
    requires chain != []
    ensures forall i :: 0 <= i < |chain| ==> Crumbs(chain)[4 * i] == Chars(chain[i])
  {
    CrumbsLayout(chain);
    forall i | 0 <= i < |chain|
      ensures Crumbs(chain)[4 * i] == Chars(chain[i])
    {
      var j := 4 * i;
      assert j % 4 == 0 && j / 4 == i;
    }
  }

  /** Pieces that only write characters, never an escape. */
  predicate NoColor(pieces: seq<Piece>) {
    forall k :: 0 <= k < |pieces| ==> pieces[k].Chars? || pieces[k].Glyph?
  }

  lemma {:induction false} PenAfterNoColor(pen: Pen, pieces: seq<Piece>)
    requires NoColor(pieces)
    ensures PenAfter(pen, pieces) == pen
    decreases |pieces|
  {
    if pieces != [] {
      PenAfterNoColor(pen, pieces[1..]);
    }
  }

  lemma {:induction false} CrumbsNoColor(chain: seq<string>)
    requires chain != []
    ensures NoColor(Crumbs(chain))
    decreases |chain|
  {
    if |chain| > 1 {
      CrumbsNoColor(chain[..|chain| - 1]);
    }
  }

  /** The banner's colours, then a space, before the breadcrumb. */
  lemma WorkingDirectoryOpens(pen: Pen)
    ensures PenAfter(pen, ColorPieces(BRIGHT, WD) + [Chars(" ")]) == Pen(Some(BRIGHT), Some(WD))
  {
    PenAfterFour(pen, SetFore(BRIGHT), SetBack(WD), Chars(" "), Chars(" "));
    PenAfterAppend(pen, [SetFore(BRIGHT), SetBack(WD)], [Chars(" ")]);
    PenAfterOne(Pen(Some(BRIGHT), Some(WD)), Chars(" "));
  }

  /** Every directory of the working-directory banner is written, in order,
      in the bright colour on the working-directory colour. */
  lemma DirectoriesDrawn(pen: Pen, chain: seq<string>)
    requires chain != []
    ensures var banner := WorkingDirectoryPieces(chain);
      forall i :: 0 <= i < |chain| ==>
        banner[3 + 4 * i] == Chars(chain[i]) &&
        PenAfter(pen, banner[..3 + 4 * i]) == Pen(Some(BRIGHT), Some(WD))
  {
    var banner := WorkingDirectoryPieces(chain);
    var head := ColorPieces(BRIGHT, WD) + [Chars(" ")];
    var crumbs := Crumbs(chain);
    var tail := [Chars(" ")] + OutPieces(CHEVRON_RIGHT_FULL, WD);
    assert banner == head + crumbs + tail;
    CrumbsDirectories(chain);
    CrumbsNoColor(chain);
    WorkingDirectoryOpens(pen);
    forall i | 0 <= i < |chain|
      ensures banner[3 + 4 * i] == Chars(chain[i])
      ensures PenAfter(pen, banner[..3 + 4 * i]) == Pen(Some(BRIGHT), Some(WD))
    {
      assert |head| == 3;
      PenWithin(pen, head, crumbs, tail, 4 * i);
      PenAfterNoColor(Pen(Some(BRIGHT), Some(WD)), crumbs[..4 * i]);
    }
  }

  /** The working-directory banner closes with the full chevron in the
      working-directory colour on the terminal's own background, and leaves
      the terminal's defaults behind. */
  lemma WorkingDirectoryCloses(pen: Pen, chain: seq<string>)
    requires chain != []
    ensures var banner := WorkingDirectoryPieces(chain);
      banner[|banner| - 2] == Glyph(CHEVRON_RIGHT_FULL) &&
      PenAfter(pen, banner[..|banner| - 2]) == Pen(Some(WD), None) &&
      PenAfter(pen, banner) == DEFAULT_PEN
  {
    var banner := WorkingDirectoryPieces(chain);
    var body := ColorPieces(BRIGHT, WD) + [Chars(" ")] + Crumbs(chain) + [Chars(" ")];
    var out := OutPieces(CHEVRON_RIGHT_FULL, WD);
    assert banner == body + out;
    assert PenAfter(pen, body) == Pen(Some(BRIGHT), Some(WD)) by {
      WorkingDirectoryOpens(pen);
      CrumbsNoColor(chain);
      var texts := Crumbs(chain) + [Chars(" ")];
      assert NoColor(texts);
      assert body == (ColorPieces(BRIGHT, WD) + [Chars(" ")]) + texts;
      PenAfterAppend(pen, ColorPieces(BRIGHT, WD) + [Chars(" ")], texts);
      PenAfterNoColor(Pen(Some(BRIGHT), Some(WD)), texts);
    }
    TransitionOutDraws(Pen(Some(BRIGHT), Some(WD)), CHEVRON_RIGHT_FULL, WD);
    assert banner[..|banner| - 2] == body + out[..2];
    PenAfterAppend(pen, body, out[..2]);
    PenAfterAppend(pen, body, out);
  }

  /** The branch bubble opens onto the bright colour on the branch colour,
      and the branch name is written in those colours. */
  lemma BranchOpens(pen: Pen, branchName: string)
    ensures var named := InPieces(OPENING_BUBBLE, BRIGHT, BRANCH) + [Chars(" ")] + [Chars(branchName)] + [Chars(" ")];
      named[5] == Chars(branchName) &&
      PenAfter(pen, named[..5]) == Pen(Some(BRIGHT), Some(BRANCH)) &&
      PenAfter(pen, named) == Pen(Some(BRIGHT), Some(BRANCH))
  {
    var bubble := InPieces(OPENING_BUBBLE, BRIGHT, BRANCH);
    var texts := [Chars(" ")] + [Chars(branchName)] + [Chars(" ")];
    var named := bubble + texts;
    TransitionInDraws(pen, OPENING_BUBBLE, BRIGHT, BRANCH);
    assert NoColor(texts) && NoColor(texts[..1]);
    assert named[..5] == bubble + texts[..1];
    PenAfterAppend(pen, bubble, texts[..1]);
    PenAfterNoColor(Pen(Some(BRIGHT), Some(BRANCH)), texts[..1]);
    PenAfterAppend(pen, bubble, texts);
    PenAfterNoColor(Pen(Some(BRIGHT), Some(BRANCH)), texts);
    assert InPieces(OPENING_BUBBLE, BRIGHT, BRANCH) + [Chars(" ")] + [Chars(branchName)] + [Chars(" ")] == named;
  }

  /** The gift is written in the bright colour on the notification colour, and
      the medallion hands back the branch bubble's colours, whatever the pen
      it starts from. */
  lemma MedallionDraws(pen: Pen)
    ensures var medallion := MedallionPieces();
      medallion[5] == Glyph(GIFT) &&
      PenAfter(pen, medallion[..5]) == Pen(Some(BRIGHT), Some(NOTIFICATION)) &&
      PenAfter(pen, medallion) == Pen(Some(BRIGHT), Some(BRANCH))
  {
    var medallion := MedallionPieces();
    var notify := InPieces(OPENING_BUBBLE, BRIGHT, NOTIFICATION);
    var gift := [Chars(" ")] + [Glyph(GIFT)] + [Chars(" ")];
    var onto := OutOntoPieces(CLOSING_BUBBLE, NOTIFICATION, BRIGHT, BRANCH);
    assert medallion == notify + gift + onto + [Chars(" ")];
    assert medallion == notify + gift + (onto + [Chars(" ")]);
    GiftDrawn(pen, notify, gift, onto + [Chars(" ")]);
    TransitionInDraws(pen, OPENING_BUBBLE, BRIGHT, NOTIFICATION);
    TransitionOutOntoDraws(Pen(Some(BRIGHT), Some(NOTIFICATION)), CLOSING_BUBBLE, NOTIFICATION, BRIGHT, BRANCH);
    PenAfterAppend(pen, notify + gift, onto);
    PenAfterAppend(pen, notify + gift + onto, [Chars(" ")]);
    PenAfterOne(Pen(Some(BRIGHT), Some(BRANCH)), Chars(" "));
  }

  /** The gift between its two spaces, after the notification bubble opens. */
  lemma GiftDrawn(pen: Pen, notify: seq<Piece>, gift: seq<Piece>, rest: seq<Piece>)
    requires notify == InPieces(OPENING_BUBBLE, BRIGHT, NOTIFICATION)
    requires gift == [Chars(" ")] + [Glyph(GIFT)] + [Chars(" ")]
    ensures var pieces := notify + gift + rest;
      pieces[5] == Glyph(GIFT) &&
      PenAfter(pen, pieces[..5]) == Pen(Some(BRIGHT), Some(NOTIFICATION)) &&
      PenAfter(pen, notify + gift) == Pen(Some(BRIGHT), Some(NOTIFICATION))
  {
    TransitionInDraws(pen, OPENING_BUBBLE, BRIGHT, NOTIFICATION);
    assert NoColor(gift) && NoColor(gift[..1]);
    PenWithin(pen, notify, gift, rest, 1);
    PenAfterNoColor(Pen(Some(BRIGHT), Some(NOTIFICATION)), gift[..1]);
    PenAfterAppend(pen, notify, gift);
    PenAfterNoColor(Pen(Some(BRIGHT), Some(NOTIFICATION)), gift);
  }

  /** The pen part way into `head + middle + tail`, at an offset into `middle`. */
  lemma PenWithin(pen: Pen, head: seq<Piece>, middle: seq<Piece>, tail: seq<Piece>, k: nat)
    requires k <= |middle|
    ensures k < |middle| ==> (head + middle + tail)[|head| + k] == middle[k]
    ensures PenAfter(pen, (head + middle + tail)[..|head| + k]) == PenAfter(PenAfter(pen, head), middle[..k])
  {
    assert (head + middle + tail)[..|head| + k] == head + middle[..k];
    PenAfterAppend(pen, head, middle[..k]);
  }

  /** The branch name is written in the bright colour inside the branch
      bubble; when there is uncommitted work the gift is written in the bright
      colour on the notification colour, after which the branch bubble's
      colours are back; the banner leaves the terminal's defaults behind. */
  lemma BranchDraws(pen: Pen, branchName: string, uncommitted: bool)
    requires branchName != ""
    ensures var banner := BranchPieces(branchName, uncommitted);
      banner[5] == Chars(branchName) &&
      PenAfter(pen, banner[..5]) == Pen(Some(BRIGHT), Some(BRANCH)) &&
      (uncommitted ==>
        banner[12] == Glyph(GIFT) &&
        PenAfter(pen, banner[..12]) == Pen(Some(BRIGHT), Some(NOTIFICATION)) &&
        PenAfter(pen, banner[..19]) == Pen(Some(BRIGHT), Some(BRANCH))) &&
      PenAfter(pen, banner) == DEFAULT_PEN
  {
    var banner := BranchPieces(branchName, uncommitted);
    var named := InPieces(OPENING_BUBBLE, BRIGHT, BRANCH) + [Chars(" ")] + [Chars(branchName)] + [Chars(" ")];
    var medallion := if uncommitted then MedallionPieces() else [];
    var rest := OutPieces(CLOSING_BUBBLE, BRANCH) + [Chars("\n")];
    var inBranch := Pen(Some(BRIGHT), Some(BRANCH));
    assert banner == named + medallion + rest;
    BranchOpens(pen, branchName);
    assert banner[..5] == named[..5] && banner[5] == named[5];
    if uncommitted {
      MedallionDraws(inBranch);
      PenWithin(pen, named, medallion, rest, 5);
      PenWithin(pen, named, medallion, rest, |medallion|);
      assert medallion[..|medallion|] == medallion;
    } else {
      assert named + medallion == named;
    }
    PenAfterAppend(pen, named, medallion);
    BranchCloses(PenAfter(pen, named + medallion));
    PenAfterAppend(pen, named + medallion, rest);
  }

  /** Closing the branch bubble leaves the terminal's defaults behind, whatever the pen was. */
  lemma BranchCloses(pen: Pen)
    ensures PenAfter(pen, OutPieces(CLOSING_BUBBLE, BRANCH) + [Chars("\n")]) == DEFAULT_PEN
  {
    TransitionOutDraws(pen, CLOSING_BUBBLE, BRANCH);
    PenAfterAppend(pen, OutPieces(CLOSING_BUBBLE, BRANCH), [Chars("\n")]);
    PenAfterOne(DEFAULT_PEN, Chars("\n"));
  }

  /** After the prompt the terminal is back on its own colours whenever a
      banner was drawn, and untouched otherwise, so the command line the user
      types is never coloured. */
  lemma PromptRestoresColors(pen: Pen, branchName: string, uncommitted: bool, chain: seq<string>)
    ensures PenAfter(pen, PromptPieces(branchName, uncommitted, chain)) ==
            if branchName == "" && chain == [] then pen else DEFAULT_PEN
  {
    var banner := BranchPieces(branchName, uncommitted);
    var wd := WorkingDirectoryPieces(chain);
    PenAfterAppend(pen, banner, wd);
    PenAfterAppend(pen, banner + wd, [Chars(CUE)]);
    assert NoColor([Chars(CUE)]);
    PenAfterNoColor(PenAfter(pen, banner + wd), [Chars(CUE)]);
    if branchName != "" {
      BranchDraws(pen, branchName, uncommitted);
    } else {
      assert PenAfter(pen, banner) == pen;
    }
    if chain != [] {
      WorkingDirectoryCloses(PenAfter(pen, banner), chain);
    } else {
      assert PenAfter(PenAfter(pen, banner), wd) == PenAfter(pen, banner);
    }
  }

  /** The gift appears exactly when the prompt is drawn inside a branch with
      uncommitted files. */
  lemma GiftShownIff(branchName: string, uncommitted: bool, chain: seq<string>)
    ensures Glyph(GIFT) in PromptPieces(branchName, uncommitted, chain) <==> branchName != "" && uncommitted
  {
    var banner := BranchPieces(branchName, uncommitted);
    var wd := WorkingDirectoryPieces(chain);
    assert PromptPieces(branchName, uncommitted, chain) == banner + wd + [Chars(CUE)];
    if chain != [] {
      var crumbs := Crumbs(chain);
      CrumbsLayout(chain);
      assert Glyph(GIFT) !in crumbs by {
        forall k | 0 <= k < |crumbs|
          ensures crumbs[k] != Glyph(GIFT)
        {
        }
      }
      assert wd == ColorPieces(BRIGHT, WD) + [Chars(" ")] + crumbs + [Chars(" ")] + OutPieces(CHEVRON_RIGHT_FULL, WD);
    }
    assert Glyph(GIFT) !in wd;
    if branchName != "" && uncommitted {
      assert banner[12] == Glyph(GIFT);
    }
  }

  /** Outside a branch and outside any directory the prompt is the bare cue. */
  lemma EmptyPromptIsCue(uncommitted: bool)
    ensures Render(PromptPieces("", uncommitted, [])) == CUE
  {
    assert PromptPieces("", uncommitted, []) == [Chars(CUE)];
    RenderOne(Chars(CUE));
  }

  /** Whatever the banners, the prompt ends with the cue. */
  lemma PromptEndsWithCue(branchName: string, uncommitted: bool, chain: seq<string>)
    ensures var prompt := Render(PromptPieces(branchName, uncommitted, chain));
      |prompt| >= |CUE| && prompt[|prompt| - |CUE|..] == CUE
  {
    var banners := BranchPieces(branchName, uncommitted) + WorkingDirectoryPieces(chain);
    RenderAppend(banners, [Chars(CUE)]);
    RenderOne(Chars(CUE));
    var prompt := Render(PromptPieces(branchName, uncommitted, chain));
    assert prompt == Render(banners) + CUE;
  }

  // ---------------------------------------------------------------------------
  // The program

  /** `" " + CHEVRON_RIGHT_LINE + " "` */
  function DirSeparator(): (s: string)
    ensures s == Render(DIR_SEPARATOR)
  {
    RenderThree([Chars(" ")], [Glyph(CHEVRON_RIGHT_LINE)], [Chars(" ")]);
    RenderOne(Chars(" "));
    RenderOne(Glyph(CHEVRON_RIGHT_LINE));
    " " + CHEVRON_RIGHT_LINE + " "
  }

  lemma CrumbsFirst(chain: seq<string>)
    requires chain != []
    ensures Crumbs(chain[..1]) == [Chars(chain[0])]
  {
  }

  lemma CrumbsSnoc(chain: seq<string>, i: nat)
    requires 1 <= i < |chain|
    ensures Crumbs(chain[..i + 1]) == Crumbs(chain[..i]) + DIR_SEPARATOR + [Chars(chain[i])]
  {
    assert chain[..i + 1][..i] == chain[..i];
  }

  /** The gift medallion drawn inside the branch bubble when there are
      uncommitted files. */
  method GiftMedallion() returns (out: string)
    ensures out == Render(MedallionPieces())
  {
    out := TransitionIn(OPENING_BUBBLE, BRIGHT, NOTIFICATION);
    out := out + " ";
    out := out + GIFT;
    out := out + " ";
    out := out + TransitionOutOnto(CLOSING_BUBBLE, NOTIFICATION, BRIGHT, BRANCH);
    out := out + " ";
    RenderSix(InPieces(OPENING_BUBBLE, BRIGHT, NOTIFICATION), [Chars(" ")], [Glyph(GIFT)], [Chars(" ")],
      OutOntoPieces(CLOSING_BUBBLE, NOTIFICATION, BRIGHT, BRANCH), [Chars(" ")]);
    RenderOne(Chars(" "));
    RenderOne(Glyph(GIFT));
  }

  /** The branch banner of `program()`: the branch bubble, with the gift
      medallion inside it when `git status --porcelain` reports a change. */
  method BranchBanner(branchName: string, statusOutput: string) returns (out: string)
    requires branchName != ""
    ensures out == Render(BranchPieces(branchName, HasUncommittedChange(statusOutput)))
  {
    out := TransitionIn(OPENING_BUBBLE, BRIGHT, BRANCH);
    out := out + " ";
    out := out + branchName;
    out := out + " ";
    var uncommitted := AreThereUncommittedFiles(statusOutput);
    var medallion := "";
    if uncommitted {
      medallion := GiftMedallion();
    }
    out := out + medallion;
    out := out + TransitionOut(CLOSING_BUBBLE, BRANCH);
    out := out + "\n";
    RenderSeven(InPieces(OPENING_BUBBLE, BRIGHT, BRANCH), [Chars(" ")], [Chars(branchName)], [Chars(" ")],
      if uncommitted then MedallionPieces() else [], OutPieces(CLOSING_BUBBLE, BRANCH), [Chars("\n")]);
    RenderOne(Chars(" "));
    RenderOne(Chars(branchName));
    RenderOne(Chars("\n"));
  }

  /** The directories of a non-empty chain with `dirSeparator` between
      neighbours: the first, then directory and separator for each of the
      middle ones (the `std::for_each` loop), then the last. */
  method Breadcrumb(wdChain: seq<string>) returns (out: string)
    requires wdChain != []
    ensures out == Render(Crumbs(wdChain))
  {
    out := wdChain[0];
    RenderOne(Chars(wdChain[0]));
    CrumbsFirst(wdChain);

    if |wdChain| > 1 {
      var dirSeparator := DirSeparator();
      out := out + dirSeparator;
      RenderAppend(Crumbs(wdChain[..1]), DIR_SEPARATOR);

      for i := 1 to |wdChain| - 1
        invariant out == Render(Crumbs(wdChain[..i]) + DIR_SEPARATOR)
      {
        RenderThree(Crumbs(wdChain[..i]) + DIR_SEPARATOR, [Chars(wdChain[i])], DIR_SEPARATOR);
        RenderOne(Chars(wdChain[i]));
        CrumbsSnoc(wdChain, i);
        out := out + wdChain[i];
        out := out + dirSeparator;
      }

      var last := |wdChain| - 1;
      RenderAppend(Crumbs(wdChain[..last]) + DIR_SEPARATOR, [Chars(wdChain[last])]);
      RenderOne(Chars(wdChain[last]));
      CrumbsSnoc(wdChain, last);
      assert wdChain[..last + 1] == wdChain;
      out := out + wdChain[last];
    } else {
      assert wdChain[..1] == wdChain;
    }
  }

  /** The working-directory banner of `program()`: the breadcrumb on the
      working-directory colour, closed by a full chevron. */
  method WorkingDirectoryBanner(wdChain: seq<string>) returns (out: string)
    requires wdChain != []
    ensures out == Render(WorkingDirectoryPieces(wdChain))
  {
    out := SetColors(BRIGHT, WD);
    out := out + " ";
    var crumbs := Breadcrumb(wdChain);
    out := out + crumbs;
    out := out + " ";
    out := out + TransitionOut(CHEVRON_RIGHT_FULL, WD);
    RenderFive(ColorPieces(BRIGHT, WD), [Chars(" ")], Crumbs(wdChain), [Chars(" ")], OutPieces(CHEVRON_RIGHT_FULL, WD));
    RenderOne(Chars(" "));
  }

  /** Everything `program()` writes to standard output, banner by banner.
      The branch name, the output of `git status --porcelain` and the
      directory chain of `$PWD` are what its subprocesses and environment
      would give. */
  method Program(branchName: string, statusOutput: string, wdChain: seq<string>) returns (out: string)
    ensures out == Render(PromptPieces(branchName, HasUncommittedChange(statusOutput), wdChain))
  {
    var branchBanner := "";
    if branchName != "" {
      branchBanner := BranchBanner(branchName, statusOutput);
    }
    var wdBanner := "";
    if wdChain != [] {
      wdBanner := WorkingDirectoryBanner(wdChain);
    }
    out := branchBanner + wdBanner + CUE;
    RenderThree(BranchPieces(branchName, HasUncommittedChange(statusOutput)), WorkingDirectoryPieces(wdChain), [Chars(CUE)]);
    RenderOne(Chars(CUE));
  }
}
