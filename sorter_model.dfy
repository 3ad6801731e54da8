/**
  What the image sorter's `Controller` (sorter.py:36-154) does, as
  functions on a value: the sorted list of image paths, the position of the
  image shown, the glob patterns the list is loaded from, the files that
  exist, the path last shown and whether quitting was requested. Each
  operation yields the new value and the exception it raised, if any; an
  exception raised in a Tk key handler is reported by Tk and the program
  goes on with the state as the exception left it.
*/
module SorterModel {
  import opened Wrappers
  import opened PathNames
  import opened Ordering
  import opened SorterActions
  import opened KeyBindings

  /** `image_files`: one glob pattern (the command line's default is the
      single string "*.jpg") or a list of them. */
  datatype Sources = One(pattern: string) | Many(patterns: seq<string>)

  function Patterns(src: Sources): seq<string> {
    match src
    case One(p) => [p]
    case Many(ps) => ps
  }

  /** `glob.glob(pattern)` given the files that exist. */
  type Glob = (string, set<string>) -> seq<string>

  /** The exceptions the controller's operations raise: `IndexError` from
      `image_list[i]` or `del`, the "No images found" exception,
      `FileNotFoundError` from `os.remove`, `os.rename` or `copyfile`,
      `shutil.SameFileError`, the "Unknown action" exception, and the
      `TypeError` of a logging call given a keyword it does not take. */
  datatype Error = IndexOutOfRange | NoImages | FileMissing | SameFile | UnknownAction | BadLogCall

  datatype Sorter = Sorter(
    images: seq<string>,
    index: int,
    sources: Sources,
    files: set<string>,
    shown: Option<string>,
    quit: bool)

  datatype Effect = Effect(state: Sorter, error: Option<Error>)

  /** `xs[i]` is defined in Python: negative positions count from the end. */
  predicate InRange(xs: seq<string>, i: int) {
    -|xs| <= i < |xs|
  }

  /** The position Python's `xs[i]` refers to. */
  function Slot(xs: seq<string>, i: int): (k: nat)
    requires InRange(xs, i)
    ensures k < |xs| && (k == i || k == i + |xs|)
  {
    if i < 0 then i + |xs| else i
  }

  /** `del xs[k]`. */
  function Remove(xs: seq<string>, k: nat): seq<string>
    requires k < |xs|
  {
    xs[..k] + xs[k + 1..]
  }

  /** Removing one element shortens the list by one and keeps the others
      in their order. */
  lemma RemoveKeepsOrder(xs: seq<string>, k: nat)
    requires k < |xs|
    ensures |Remove(xs, k)| == |xs| - 1
    ensures forall j :: 0 <= j < |xs| - 1 ==> Remove(xs, k)[j] == xs[if j < k then j else j + 1]
    ensures multiset(Remove(xs, k)) + multiset{xs[k]} == multiset(xs)
  {
    assert xs == xs[..k] + [xs[k]] + xs[k + 1..];
  }

  /** The paths the glob patterns find, pattern by pattern. */
  function Globbed(g: Glob, patterns: seq<string>, files: set<string>): seq<string>
    decreases |patterns|
  {
    if patterns == [] then []
    else Globbed(g, patterns[..|patterns| - 1], files) + g(patterns[|patterns| - 1], files)
  }

  /** `load_images_from_src()` (sorter.py:120-129). The paths found are
      added to the list already there, which is not cleared; an empty list
      raises, anything else is sorted and shown from its first image. */
  function Load(g: Glob, s: Sorter): Effect {
    var patterns := Patterns(s.sources);
    var images := s.images + Globbed(g, patterns, s.files);
    if images == [] then Effect(Sorter(images, s.index, Many(patterns), s.files, s.shown, s.quit), Some(NoImages))
    else Effect(Sorter(Sort(images), 0, Many(patterns), s.files, s.shown, s.quit), None)
  }

  /** Loading keeps the files and the view, records the patterns as a
      list, and fails exactly when neither the list nor the patterns hold a
      path; otherwise the list becomes the old paths and the found ones,
      sorted, with the cursor on the first. */
  lemma LoadSorts(g: Glob, s: Sorter)
    ensures var r := Load(g, s);
      && r.state.sources == Many(Patterns(s.sources))
      && r.state.files == s.files && r.state.shown == s.shown && r.state.quit == s.quit
      && (r.error.None? <==> s.images + Globbed(g, Patterns(s.sources), s.files) != [])
      && (r.error.Some? ==> r.error == Some(NoImages) && r.state.images == [] && r.state.index == s.index)
      && (r.error.None? ==>
        && Sorted(r.state.images)
        && multiset(r.state.images) == multiset(s.images) + multiset(Globbed(g, Patterns(s.sources), s.files))
        && r.state.index == 0)
  {
  }

  /** The cursor moved by `n` on a non-empty list, wrapping around at both
      ends, and the image there shown. */
  function Wrap(s: Sorter, n: int): (r: Effect)
    requires s.images != []
  {
    var i := (s.index + n) % |s.images|;
    Effect(s.(index := i, shown := Some(s.images[i])), None)
  }

  /** A list to show and a cursor on one of its images. */
  predicate Showing(s: Sorter) {
    s.images != [] && 0 <= s.index < |s.images|
  }

  /** `show_next_img(n)` (sorter.py:131-141): an empty list is loaded
      first; then the cursor moves by `n` modulo the length of the list. */
  function Show(g: Glob, s: Sorter, n: int): (r: Effect)
    ensures r.error.None? ==> Showing(r.state) && r.state.shown == Some(r.state.images[r.state.index])
    ensures r.error.Some? ==> r.error == Some(NoImages) && s.images == []
    ensures r.state.files == s.files && r.state.quit == s.quit
  {
    if s.images == [] then
      var loaded := Load(g, s);
      if loaded.error.Some? then loaded else Wrap(loaded.state, n)
    else Wrap(s, n)
  }

  /** `delete_current_image()` (sorter.py:91-96): the current path leaves
      the list, then its file is removed, then the cursor is normalised. */
  function DeleteCurrent(g: Glob, s: Sorter): Effect {
    if !InRange(s.images, s.index) then Effect(s, Some(IndexOutOfRange))
    else
      var k := Slot(s.images, s.index);
      var path := s.images[k];
      var shorter := s.(images := Remove(s.images, k));
      if path !in s.files then Effect(shorter, Some(FileMissing))
      else Show(g, shorter.(files := s.files - {path}), 0)
  }

  /** Where the current image goes: `TargetAsWritten` for the code as
      written at sorter.py:99, `TargetFileName` as evidently intended. */
  function Target(folder: string, path: string, asWritten: bool): string {
    if asWritten then TargetAsWritten(folder, path) else TargetFileName(folder, path)
  }

  /** `move_current_image_to(folder)` (sorter.py:107-112) after its
      logging call: the file is renamed into the folder, then the path
      leaves the list. */
  function MoveCurrentTo(g: Glob, s: Sorter, folder: string, asWritten: bool): Effect {
    if !InRange(s.images, s.index) then Effect(s, Some(IndexOutOfRange))
    else
      var k := Slot(s.images, s.index);
      var path := s.images[k];
      var target := Target(folder, path, asWritten);
      if path !in s.files then Effect(s, Some(FileMissing))
      else Show(g, s.(files := s.files - {path} + {target}, images := Remove(s.images, k)), 0)
  }

  /** `copy_current_image_to(folder)` (sorter.py:114-118) after its
      logging call: the file is copied into the folder; the list stays as
      it is. `copyfile` refuses to copy a file onto itself and reports a
      missing source. */
  function CopyCurrentTo(g: Glob, s: Sorter, folder: string, asWritten: bool): Effect {
    if !InRange(s.images, s.index) then Effect(s, Some(IndexOutOfRange))
    else
      var path := s.images[Slot(s.images, s.index)];
      var target := Target(folder, path, asWritten);
      if path !in s.files then Effect(s, Some(FileMissing))
      else if path == target then Effect(s, Some(SameFile))
      else Show(g, s.(files := s.files + {target}), 0)
  }

  /** MOVE as evidently intended: no failing logging call, and the image
      goes into the folder under its own name. */
  function MoveCurrent(g: Glob, s: Sorter, folder: string): Effect {
    MoveCurrentTo(g, s, folder, false)
  }

  /** COPY as evidently intended. */
  function CopyCurrent(g: Glob, s: Sorter, folder: string): Effect {
    CopyCurrentTo(g, s, folder, false)
  }

  /** What an action does; QUIT asks Tk's main loop to end. */
  function Run(g: Glob, s: Sorter, a: Action): Effect {
    match a
    case Quit => Effect(s.(quit := true), None)
    case Reload => Load(g, s)
    case Delete => DeleteCurrent(g, s)
    case Next(n) => Show(g, s, n)
    case Move(folder) => MoveCurrent(g, s, folder)
    case Copy(folder) => CopyCurrent(g, s, folder)
    case Unknown => Effect(s, Some(UnknownAction))
  }

  /** `__perform_action(action)` (sorter.py:46-89): the action the string
      names, run. */
  function Perform(g: Glob, s: Sorter, action: string): Effect {
    Run(g, s, ParseAction(action))
  }

  /** `handle_key(event)` (sorter.py:143-154): the binding of the key code,
      else the binding of the character, else nothing. */
  function HandleKey(g: Glob, bindings: map<Key, string>, s: Sorter, code: int, ch: string): Effect {
    if Code(code) in bindings then Perform(g, s, bindings[Code(code)])
    else if Char(ch) in bindings then Perform(g, s, bindings[Char(ch)])
    else Effect(s, None)
  }

  lemma {:induction false} MulAtLeast(d: int, len: int)
    requires d >= 1 && len >= 0
    ensures d * len >= len
    decreases d
  {
    if d > 1 {
      MulAtLeast(d - 1, len);
      assert d * len == (d - 1) * len + len;
    }
  }

  /** Euclidean remainder is unique: a number that is `r` more than a
      multiple of `len`, with `0 <= r < len`, leaves remainder `r`. */
  lemma ModUnique(x: int, len: int, q: int, r: int)
    requires len > 0 && 0 <= r < len && x == q * len + r
    ensures x % len == r
  {
    var q0 := x / len;
    var r0 := x % len;
    assert x == q0 * len + r0;
    if q0 > q {
      MulAtLeast(q0 - q, len);
    } else if q0 < q {
      MulAtLeast(q - q0, len);
    }
  }

  /** Adding whole turns does not move a cursor. */
  lemma ModTurns(a: int, q: int, len: int)
    requires len > 0
    ensures (a + q * len) % len == a % len
  {
    var q0 := a / len;
    assert a == q0 * len + a % len;
    assert a + q * len == (q0 + q) * len + a % len;
    ModUnique(a + q * len, len, q0 + q, a % len);
  }

  /** On a list that is not empty, moving the cursor by `n` and back by
      `n` returns to the image shown before. */
  lemma ShowThereAndBack(g: Glob, s: Sorter, n: int)
    requires s.images != [] && 0 <= s.index < |s.images|
    ensures var there := Show(g, s, n).state;
      Show(g, there, -n).state == s.(shown := Some(s.images[s.index]))
  {
    var len := |s.images|;
    var i := (s.index + n) % len;
    var q := (s.index + n) / len;
    assert s.index + n == q * len + i;
    var there := s.(index := i, shown := Some(s.images[i]));
    assert Show(g, s, n).state == there;
    assert i + -n == s.index + (-q) * len;
    ModTurns(s.index, -q, len);
    ModUnique(s.index, len, 0, s.index);
    assert (there.index + -n) % len == s.index;
  }

  /** Moving by the length of the list shows the same image as not moving. */
  lemma ShowFullTurn(g: Glob, s: Sorter, n: int)
    requires s.images != []
    ensures Show(g, s, n + |s.images|) == Show(g, s, n)
  {
    ModTurns(s.index + n, 1, |s.images|);
  }

  /** Reloading adds what the patterns find to the list already there: with
      the files unchanged since a load into an empty list, every path is
      listed twice. */
  lemma ReloadDuplicates(g: Glob, s: Sorter)
    requires s.images != [] && s.sources.Many?
    requires multiset(Globbed(g, s.sources.patterns, s.files)) == multiset(s.images)
    ensures Load(g, s).error.None?
    ensures forall p :: multiset(Load(g, s).state.images)[p] == 2 * multiset(s.images)[p]
    ensures |Load(g, s).state.images| == 2 * |s.images|
  {
    LoadSorts(g, s);
    var r := Load(g, s).state.images;
    assert multiset(r) == multiset(s.images) + multiset(s.images);
    calc {
      |r|;
      |multiset(r)|;
      |multiset(s.images) + multiset(s.images)|;
      2 * |s.images|;
    }
  }

  /** Deleting from a list of two or more images removes exactly the
      current path and its file and keeps the others in order; the cursor
      stays where it was, wrapping to the first image when it was on the
      last. */
  lemma DeleteRemovesCurrent(g: Glob, s: Sorter)
    requires 0 <= s.index < |s.images| && |s.images| > 1
    requires s.images[s.index] in s.files
    ensures var r := DeleteCurrent(g, s);
      && r.error.None?
      && r.state.images == Remove(s.images, s.index)
      && r.state.files == s.files - {s.images[s.index]}
      && r.state.index == (if s.index == |s.images| - 1 then 0 else s.index)
  {
    RemoveKeepsOrder(s.images, s.index);
    var len := |s.images| - 1;
    if s.index == len {
      ModUnique(s.index, len, 1, 0);
    } else {
      ModUnique(s.index, len, 0, s.index);
    }
  }

  /** Moving from a list of two or more images renames the current file
      into the folder, under its own name, and removes exactly its path
      from the list. */
  lemma MoveRelocates(g: Glob, s: Sorter, folder: string)
    requires Showing(s) && |s.images| > 1
    requires s.images[s.index] in s.files
    ensures var path := s.images[s.index]; var target := TargetFileName(folder, path); var r := MoveCurrent(g, s, folder);
      && r.error.None?
      && r.state.images == Remove(s.images, s.index)
      && r.state.files == s.files - {path} + {target}
      && Basename(target) == Basename(path)
  {
    TargetKeepsName(folder, s.images[s.index]);
    var len := |s.images| - 1;
    if s.index == len {
      ModUnique(s.index, len, 1, 0);
    } else {
      ModUnique(s.index, len, 0, s.index);
    }
  }

  /** Copying leaves the list and the cursor as they were and adds the
      copy. */
  lemma CopyKeepsList(g: Glob, s: Sorter, folder: string)
    requires Showing(s)
    requires s.images[s.index] in s.files
    requires TargetFileName(folder, s.images[s.index]) != s.images[s.index]
    ensures var r := CopyCurrent(g, s, folder);
      && r.error.None?
      && r.state.images == s.images && r.state.index == s.index
      && r.state.files == s.files + {TargetFileName(folder, s.images[s.index])}
  {
    ModUnique(s.index, |s.images|, 0, s.index);
  }

  /** Every action that completes leaves a cursor on an image of a
      non-empty list, except QUIT, which changes nothing but the request
      to quit. */
  lemma RunKeepsCursor(g: Glob, s: Sorter, a: Action)
    ensures var r := Run(g, s, a);
      r.error.None? && !a.Quit? ==> Showing(r.state)
    ensures a.Quit? ==> Run(g, s, a) == Effect(s.(quit := true), None)
  {
    if a.Delete? && InRange(s.images, s.index) {
      var k := Slot(s.images, s.index);
      RemoveKeepsOrder(s.images, k);
    }
  }

  /** A binding written as an action's canonical text performs that
      action. */
  lemma PerformRendered(g: Glob, s: Sorter, a: Action)
    requires a != Unknown
    requires a.Move? || a.Copy? ==> Folder(a.folder)
    ensures Perform(g, s, Render(a)) == Run(g, s, a)
  {
    ParseRender(a);
  }

  /** A key bound both by its code and by its character performs the
      action bound to the code; Escape, bound to QUIT, quits whatever its
      character is bound to. */
  lemma KeyCodeFirst(g: Glob, bindings: map<Key, string>, s: Sorter, code: int, ch: string)
    requires Code(code) in bindings && Char(ch) in bindings
    ensures HandleKey(g, bindings, s, code, ch) == Perform(g, s, bindings[Code(code)])
    ensures code == 9 && bindings[Code(9)] == "QUIT" ==> HandleKey(g, bindings, s, code, ch) == Effect(s.(quit := true), None)
  {
  }

  /** `move_current_image_to` as written (sorter.py:107-108): its first
      statement, `logging.info("Moving", end=" ")`, passes `logging` a
      keyword it does not take, so whenever INFO messages are logged, as
      `main` arranges at sorter.py:265, it raises `TypeError` before
      anything is moved. */
  function MoveAsWritten(g: Glob, s: Sorter, folder: string, infoLogged: bool): Effect {
    if infoLogged then Effect(s, Some(BadLogCall)) else MoveCurrentTo(g, s, folder, true)
  }

  /** `copy_current_image_to` as written (sorter.py:114-115), with the
      same logging call. */
  function CopyAsWritten(g: Glob, s: Sorter, folder: string, infoLogged: bool): Effect {
    if infoLogged then Effect(s, Some(BadLogCall)) else CopyCurrentTo(g, s, folder, true)
  }

  /** With INFO logged, MOVE and COPY as written never touch a file, where
      the evident intent moves or copies it: one image "a/img.jpg" moved or
      copied to "b". */
  lemma LoggedMoveMovesNothing(g: Glob)
    ensures var s := Sorter(["a/img.jpg"], 0, Many(["a/*.jpg"]), {"a/img.jpg"}, None, false);
      && MoveAsWritten(g, s, "b", true).state.files == {"a/img.jpg"}
      && MoveCurrent(g, s, "b").state.files == {"b/img.jpg"}
      && CopyAsWritten(g, s, "b", true).state.files == {"a/img.jpg"}
      && CopyCurrent(g, s, "b").state.files == {"a/img.jpg", "b/img.jpg"}
  {
    BasenameAfterSlash("a/", "img.jpg");
    assert "a/" + "img.jpg" == "a/img.jpg";
    assert TargetFileName("b", "a/img.jpg") == "b/img.jpg";
  }

  /** With INFO not logged, MOVE as written reaches sorter.py:99 and puts
      the image moved to "/d" in the root directory, as "/dimg.jpg", where
      the evident intent puts it in "/d". */
  lemma UnloggedMoveMisplaces(g: Glob)
    ensures var s := Sorter(["a/img.jpg"], 0, Many(["a/*.jpg"]), {"a/img.jpg"}, None, false);
      && MoveAsWritten(g, s, "/d", false).state.files == {"/dimg.jpg"}
      && MoveCurrent(g, s, "/d").state.files == {"/d/img.jpg"}
  {
    TargetAsWrittenLosesSlash();
  }
}
