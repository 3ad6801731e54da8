/**
  The image sorter's `Controller` (sorter.py:36-154). It holds the key
  bindings, the glob patterns, the list of image paths and the cursor into
  it, and updates them in place. The files that exist are the set `files`,
  `glob.glob` is the function `glob`, the Tk view is reduced to the path it
  last showed, and `root.quit()` to a flag. Each method is proved to do
  what the functions of `SorterModel` say, returning the exception it
  raised, if any, with the fields as the exception left them.
*/
module ImageSorter {
  import opened Wrappers
  import opened Ordering
  import opened SorterActions
  import opened KeyBindings
  import opened SorterModel

  class Controller {
    var keyBindings: map<Key, string>
    var imageFiles: Sources
    var imageList: seq<string>
    var currentImageIndex: int
    var files: set<string>
    var shown: Option<string>
    var quitRequested: bool
    const glob: Glob

    function State(): Sorter
      reads this
    {
      Sorter(imageList, currentImageIndex, imageFiles, files, shown, quitRequested)
    }

    /** The fields hold the state `s`, field by field. */
    predicate Holds(s: Sorter)
      reads this
    {
      && imageList == s.images && currentImageIndex == s.index && imageFiles == s.sources
      && files == s.files && shown == s.shown && quitRequested == s.quit
    }

    /** `Controller(root, view, key_bindings, image_files)` (sorter.py:38-44):
        an empty list and the cursor before its start. */
    constructor(keyBindings: map<Key, string>, imageFiles: Sources, files: set<string>, glob: Glob)
      ensures this.keyBindings == keyBindings && this.glob == glob
      ensures State() == Sorter([], -1, imageFiles, files, None, false)
    {
      this.keyBindings := keyBindings;
      this.imageFiles := imageFiles;
      this.files := files;
      this.glob := glob;
      imageList := [];
      currentImageIndex := -1;
      shown := None;
      quitRequested := false;
    }

    /** `load_images_from_src()` (sorter.py:120-129). */
    method LoadImagesFromSrc() returns (error: Option<Error>)
      modifies `imageFiles, `imageList, `currentImageIndex
      ensures var r := Load(glob, old(State())); Holds(r.state) && error == r.error
    {
      if imageFiles.One? {
        imageFiles := Many([imageFiles.pattern]);
      }
      AppendGlobbed(imageFiles.patterns);
      if imageList == [] {
        return Some(NoImages);
      }
      imageList := Sort(imageList);
      currentImageIndex := 0;
      error := None;
    }

    /** sorter.py:124-125: the paths each pattern finds, appended in turn
        to the list. */
    method AppendGlobbed(patterns: seq<string>)
      modifies `imageList
      ensures imageList == old(imageList) + Globbed(glob, patterns, files)
    {
      for i := 0 to |patterns|
        invariant imageList == old(imageList) + Globbed(glob, patterns[..i], files)
      {
        assert patterns[..i + 1][..i] == patterns[..i];
        imageList := imageList + glob(patterns[i], files);
      }
      assert patterns[..|patterns|] == patterns;
    }

    /** `show_next_img(index_change)` (sorter.py:131-141). */
    method ShowNextImg(indexChange: int) returns (error: Option<Error>)
      modifies `imageFiles, `imageList, `currentImageIndex, `shown
      ensures var r := Show(glob, old(State()), indexChange); Holds(r.state) && error == r.error
    {
      if imageList == [] {
        error := LoadImagesFromSrc();
        if error.Some? {
          return;
        }
      }
      MoveCursor(indexChange);
      error := None;
    }

    /** sorter.py:134-140: the loop adds the length of the list until the
        cursor is not negative; the remainder then puts it on the list,
        and the image there is shown. */
    method MoveCursor(indexChange: int)
      requires imageList != []
      modifies `currentImageIndex, `shown
      ensures Holds(Wrap(old(State()), indexChange).state)
    {
      ghost var start := currentImageIndex + indexChange;
      currentImageIndex := currentImageIndex + indexChange;
      ghost var turns := 0;
      while currentImageIndex < 0
        invariant currentImageIndex == start + turns * |imageList| && turns >= 0
        decreases -currentImageIndex
      {
        currentImageIndex := currentImageIndex + |imageList|;
        turns := turns + 1;
      }
      ModTurns(start, turns, |imageList|);
      currentImageIndex := currentImageIndex % |imageList|;
      shown := Some(imageList[currentImageIndex]);
    }

    /** `delete_current_image()` (sorter.py:91-96). */
    method DeleteCurrentImage() returns (error: Option<Error>)
      modifies `imageFiles, `imageList, `currentImageIndex, `shown, `files
      ensures var r := DeleteCurrent(glob, old(State())); Holds(r.state) && error == r.error
    {
      if !(-|imageList| <= currentImageIndex < |imageList|) {
        return Some(IndexOutOfRange);
      }
      var k := if currentImageIndex < 0 then currentImageIndex + |imageList| else currentImageIndex;
      var curImgPath := imageList[k];
      imageList := imageList[..k] + imageList[k + 1..];
      if curImgPath !in files {
        return Some(FileMissing);
      }
      files := files - {curImgPath};
      error := ShowNextImg(0);
    }

    /** `get_target_file_name(target_folder)` (sorter.py:98-105): the
        current path, and where it goes in the folder. */
    method GetTargetFileName(targetFolder: string) returns (paths: Option<(string, string)>)
      ensures InRange(imageList, currentImageIndex) <==> paths.Some?
      ensures paths.Some? ==>
        var cur := imageList[Slot(imageList, currentImageIndex)];
        paths.value == (cur, TargetFileName(targetFolder, cur))
    {
      if !(-|imageList| <= currentImageIndex < |imageList|) {
        return None;
      }
      var folder := targetFolder;
      if folder == [] || folder[|folder| - 1] != '/' {
        folder := folder + "/";
      }
      var k := if currentImageIndex < 0 then currentImageIndex + |imageList| else currentImageIndex;
      var curImgPath := imageList[k];
      paths := Some((curImgPath, folder + PathNames.Basename(curImgPath)));
    }

    /** `move_current_image_to(target_folder)` (sorter.py:107-112). */
    method MoveCurrentImageTo(targetFolder: string) returns (error: Option<Error>)
      modifies `imageFiles, `imageList, `currentImageIndex, `shown, `files
      ensures var r := MoveCurrent(glob, old(State()), targetFolder); Holds(r.state) && error == r.error
    {
      var paths := GetTargetFileName(targetFolder);
      if paths.None? {
        return Some(IndexOutOfRange);
      }
      var (curImgPath, target) := paths.value;
      if curImgPath !in files {
        return Some(FileMissing);
      }
      files := files - {curImgPath} + {target};
      var k := if currentImageIndex < 0 then currentImageIndex + |imageList| else currentImageIndex;
      imageList := imageList[..k] + imageList[k + 1..];
      error := ShowNextImg(0);
    }

    /** `copy_current_image_to(target_folder)` (sorter.py:114-118). */
    method CopyCurrentImageTo(targetFolder: string) returns (error: Option<Error>)
      modifies `imageFiles, `imageList, `currentImageIndex, `shown, `files
      ensures var r := CopyCurrent(glob, old(State()), targetFolder); Holds(r.state) && error == r.error
    {
      var paths := GetTargetFileName(targetFolder);
      if paths.None? {
        return Some(IndexOutOfRange);
      }
      var (curImgPath, target) := paths.value;
      if curImgPath !in files {
        return Some(FileMissing);
      }
      if curImgPath == target {
        return Some(SameFile);
      }
      files := files + {target};
      error := ShowNextImg(0);
    }

    /** `__perform_action(action)` (sorter.py:46-89). */
    method PerformAction(action: string) returns (error: Option<Error>)
      modifies `imageFiles, `imageList, `currentImageIndex, `shown, `files, `quitRequested
      ensures var r := Perform(glob, old(State()), action); Holds(r.state) && error == r.error
    {
      var a := ParseAction(action);
      match a
      case Quit =>
        quitRequested := true;
        error := None;
      case Reload =>
        error := LoadImagesFromSrc();
      case Delete =>
        error := DeleteCurrentImage();
      case Next(n) =>
        error := ShowNextImg(n);
      case Move(folder) =>
        error := MoveCurrentImageTo(folder);
      case Copy(folder) =>
        error := CopyCurrentImageTo(folder);
      case Unknown =>
        error := Some(UnknownAction);
    }

    /** `handle_key(event)` (sorter.py:143-154): the binding of the key
        code comes first, then that of the character; an unbound key does
        nothing. */
    method HandleKeyEvent(keyCode: int, keyChar: string) returns (error: Option<Error>)
      modifies `imageFiles, `imageList, `currentImageIndex, `shown, `files, `quitRequested
      ensures var r := HandleKey(glob, keyBindings, old(State()), keyCode, keyChar); Holds(r.state) && error == r.error
    {
      if Code(keyCode) in keyBindings {
        error := PerformAction(keyBindings[Code(keyCode)]);
      } else if Char(keyChar) in keyBindings {
        error := PerformAction(keyBindings[Char(keyChar)]);
      } else {
        error := None;
      }
    }
  }
}
