/**
  The image sorter's action language (sorter.py:46-89): the strings bound
  to keys, as `__perform_action` reads them. The exact words QUIT, RELOAD
  and DEL are tried first, then the patterns
      NEXT\s*(-?[0-9]+)?      MOVE\s*([^\s].*)      COPY\s*([^\s].*)
  with `re.match`, which only anchors them at the start of the string;
  anything else is an unknown action. Also here: the target path of a move
  or copy (sorter.py:98-105).
*/
module SorterActions {
  import opened Wrappers
  import opened Strings
  import opened PathNames

  datatype Action = Quit | Reload | Delete | Next(n: int) | Move(folder: string) | Copy(folder: string) | Unknown

  /** Where `.*` starting at `i` stops: at the first line feed, which `.`
      does not match, or at the end. */
  function LineEnd(s: string, i: nat): (j: nat)
    requires i <= |s|
    ensures i <= j <= |s|
    ensures forall k :: i <= k < j ==> s[k] != '\n'
    ensures j < |s| ==> s[j] == '\n'
    decreases |s| - i
  {
    if i == |s| || s[i] == '\n' then i else LineEnd(s, i + 1)
  }

  /** The optional group `(-?[0-9]+)?` tried at `i`, as the number `int()`
      makes of it; `None` when the group does not take part. */
  function SignedCount(s: string, i: nat): Option<int>
    requires i <= |s|
  {
    if i < |s| && IsDigit(s[i]) then Some(DigitsValue(s[i..DigitRun(s, i)]))
    else if i + 1 < |s| && s[i] == '-' && IsDigit(s[i + 1]) then Some(0 - DigitsValue(s[i + 1..DigitRun(s, i + 1)]))
    else None
  }

  /** The group of `<word>\s*([^\s].*)` matched at the start of `s`: after
      the word and the whitespace that follows it, a character that is not
      whitespace and the rest of the line. Giving back whitespace cannot
      help `[^\s]` match, so the greedy `\s*` decides. */
  function Argument(s: string, word: string): Option<string> {
    if !StartsWith(s, word) then None
    else
      var j := SkipSpaces(s, |word|);
      if j == |s| then None else Some(s[j..LineEnd(s, j + 1)])
  }

  /** The action `__perform_action` takes for the string `s`. `NEXT`
      without a count moves on by one. */
  function ParseAction(s: string): Action {
    if s == "QUIT" then Quit
    else if s == "RELOAD" then Reload
    else if s == "DEL" then Delete
    else if StartsWith(s, "NEXT") then
      var count := SignedCount(s, SkipSpaces(s, 4));
      Next(if count.Some? then count.value else 1)
    else if Argument(s, "MOVE").Some? then Move(Argument(s, "MOVE").value)
    else if Argument(s, "COPY").Some? then Copy(Argument(s, "COPY").value)
    else Unknown
  }

  /** A folder a MOVE or COPY binding can name: it starts with a character
      other than whitespace and stays on one line. */
  predicate Folder(f: string) {
    f != [] && !IsSpace(f[0]) && '\n' !in f
  }

  /** The canonical binding text of an action. */
  function Render(a: Action): string {
    match a
    case Quit => "QUIT"
    case Reload => "RELOAD"
    case Delete => "DEL"
    case Next(n) => "NEXT " + IntToString(n)
    case Move(f) => "MOVE " + f
    case Copy(f) => "COPY " + f
    case Unknown => ""
  }

  /** A run of digits extends to the end of a string that is all digits
      from `i` on. */
  lemma DigitRunToEnd(s: string, i: nat)
    requires i <= |s| && AllDigits(s[i..])
    ensures DigitRun(s, i) == |s|
  {
  }

  /** The count of `NEXT <n>` reads back as `n`. */
  lemma NextCountRoundTrip(n: int)
    ensures var s := "NEXT " + IntToString(n);
      SkipSpaces(s, 4) == 5 && SignedCount(s, 5) == Some(n)
  {
    var s := "NEXT " + IntToString(n);
    var m: nat := if n < 0 then -n else n;
    var digits := NatToString(m);
    NatToStringValue(m);
    assert s[4] == ' ';
    if n < 0 {
      assert s == "NEXT -" + digits;
      assert s[6..] == digits && s[5] == '-' && s[6] == digits[0];
      DigitRunToEnd(s, 6);
      assert s[6..DigitRun(s, 6)] == digits;
    } else {
      assert s == "NEXT " + digits;
      assert s[5..] == digits && s[5] == digits[0];
      DigitRunToEnd(s, 5);
      assert s[5..DigitRun(s, 5)] == digits;
    }
  }

  /** The argument of `<word> <f>` reads back as `f` when `f` is a folder. */
  lemma ArgumentRoundTrip(word: string, f: string)
    requires Folder(f)
    ensures Argument(word + " " + f, word) == Some(f)
  {
    var s := word + " " + f;
    assert s[..|word|] == word;
    assert s[|word|] == ' ' && s[|word| + 1] == f[0];
    assert SkipSpaces(s, |word|) == |word| + 1;
    forall k | |word| + 1 <= k < |s| ensures s[k] != '\n' {
      assert s[k] == f[k - |word| - 1];
    }
    assert s[|word| + 1..|s|] == f;
  }

  lemma ParseRenderNext(n: int)
    ensures ParseAction(Render(Next(n))) == Next(n)
  {
    NextCountRoundTrip(n);
    var s := Render(Next(n));
    assert s[..4] == "NEXT" && s[0] == 'N';
  }

  lemma ParseRenderMove(f: string)
    requires Folder(f)
    ensures ParseAction(Render(Move(f))) == Move(f)
  {
    ArgumentRoundTrip("MOVE", f);
    var s := Render(Move(f));
    assert s == "MOVE" + " " + f;
    assert s[..4] == "MOVE";
    assert s != "QUIT" && s != "RELOAD" && s != "DEL" && !StartsWith(s, "NEXT");
  }

  lemma ParseRenderCopy(f: string)
    requires Folder(f)
    ensures ParseAction(Render(Copy(f))) == Copy(f)
  {
    ArgumentRoundTrip("COPY", f);
    var s := Render(Copy(f));
    assert s == "COPY" + " " + f;
    assert s[..4] == "COPY" && s[0] == 'C';
    assert s != "QUIT" && s != "RELOAD" && s != "DEL" && !StartsWith(s, "NEXT");
    assert !StartsWith(s, "MOVE") by { assert s[..4][0] != "MOVE"[0]; }
  }

  /** Parsing the canonical text of an action gives the action back. */
  lemma ParseRender(a: Action)
    requires a != Unknown
    requires a.Move? || a.Copy? ==> Folder(a.folder)
    ensures ParseAction(Render(a)) == a
  {
    match a
    case Next(n) => ParseRenderNext(n);
    case Move(f) => ParseRenderMove(f);
    case Copy(f) => ParseRenderCopy(f);
    case _ =>
  }

  /** Every string that starts with NEXT is a NEXT action, whatever
      follows; a NEXT without a readable count moves on by one. */
  lemma NextPrefixWins(s: string)
    requires StartsWith(s, "NEXT")
    ensures ParseAction(s).Next?
    ensures SignedCount(s, SkipSpaces(s, 4)).None? ==> ParseAction(s) == Next(1)
  {
    assert s != "QUIT" && s != "RELOAD" && s != "DEL" by {
      assert s[0] == 'N';
    }
  }

  /** MOVE and COPY need a folder: the bare word, or the word followed by
      nothing but whitespace, is an unknown action. */
  lemma MoveNeedsFolder(word: string, blanks: string)
    requires word == "MOVE" || word == "COPY"
    requires forall k :: 0 <= k < |blanks| ==> IsSpace(blanks[k])
    ensures ParseAction(word + blanks) == Unknown
  {
    var s := word + blanks;
    assert s[0] == word[0];
    assert forall k :: 4 <= k < |s| ==> s[k] == blanks[k - 4];
    assert s[..4] == word;
    assert !StartsWith(s, if word == "MOVE" then "COPY" else "MOVE");
  }

  /** `get_target_file_name` as written (sorter.py:99-103): a '/' is
      appended unless `target_folder[:-1]`, everything but the last
      character, is "/". */
  function TargetAsWritten(folder: string, path: string): string {
    var allButLast := if folder == [] then [] else folder[..|folder| - 1];
    (if allButLast != "/" then folder + "/" else folder) + Basename(path)
  }

  /** The folder with exactly one '/' at its end unless it has one. */
  function AsDirectory(folder: string): (d: string)
    ensures d != [] && d[|d| - 1] == '/'
    ensures d == folder || d == folder + "/"
    ensures folder != [] && folder[|folder| - 1] == '/' ==> d == folder
  {
    if folder == [] || folder[|folder| - 1] != '/' then folder + "/" else folder
  }

  /** `get_target_file_name` as evidently intended, testing the last
      character (`target_folder[-1:]`): the image's own name inside the
      folder. */
  function TargetFileName(folder: string, path: string): string {
    AsDirectory(folder) + Basename(path)
  }

  /** The target keeps the image's name and lies in the folder named. */
  lemma TargetKeepsName(folder: string, path: string)
    ensures Basename(TargetFileName(folder, path)) == Basename(path)
  {
    var name := Basename(path);
    assert '/' !in name by { BasenameShape(path); }
    BasenameAfterSlash(AsDirectory(folder), name);
  }

  /** The target lies in the folder named. */
  lemma TargetInFolder(folder: string, path: string)
    ensures StartsWith(TargetFileName(folder, path), AsDirectory(folder))
  {
    var d := AsDirectory(folder);
    assert (d + Basename(path))[..|d|] == d;
  }

  /** The code as written joins a two-character folder that starts with
      '/' to the name without a separator: "/d" and "a/img.jpg" give
      "/dimg.jpg", a file in the root directory, not in "/d". */
  lemma TargetAsWrittenLosesSlash()
    ensures TargetAsWritten("/d", "a/img.jpg") == "/dimg.jpg"
    ensures TargetFileName("/d", "a/img.jpg") == "/d/img.jpg"
    ensures Basename(TargetAsWritten("/d", "a/img.jpg")) != Basename("a/img.jpg")
  {
    BasenameAfterSlash("a/", "img.jpg");
    assert "a/" + "img.jpg" == "a/img.jpg";
    BasenameAfterSlash("/", "dimg.jpg");
    assert "/" + "dimg.jpg" == "/dimg.jpg";
    assert "/d"[..1] == "/" && "/d" + "img.jpg" == "/dimg.jpg";
    assert "/d" + "/" + "img.jpg" == "/d/img.jpg";
  }

  /** A folder that already ends in '/' gets a second one as written:
      "b/" and "a/img.jpg" give "b//img.jpg". */
  lemma TargetAsWrittenDoublesSlash()
    ensures TargetAsWritten("b/", "a/img.jpg") == "b//img.jpg"
    ensures TargetFileName("b/", "a/img.jpg") == "b/img.jpg"
  {
    BasenameAfterSlash("a/", "img.jpg");
    assert "a/" + "img.jpg" == "a/img.jpg";
    assert "b/"[..1] == "b";
    assert "b/" + "/" + "img.jpg" == "b//img.jpg";
  }
}
