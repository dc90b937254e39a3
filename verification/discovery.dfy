/**
 `PromptExtractor.list_video_files`: the entries of a folder whose names end
 with a recognised video extension. The file system is not modelled: whether
 the folder exists and the names it lists are parameters.
 */
module Discovery {
  import opened Strings
  import Sequences

  /** The recognised extensions, in the order prompt_extractor.py:77 lists them. */
  const VideoExtensions: seq<string> := [".mp4", ".avi", ".mov", ".mkv"]

  /** `name.endswith(('.mp4', '.avi', '.mov', '.mkv'))`: case-sensitive. */
  predicate IsVideoFile(name: string) {
    exists e :: 0 <= e < |VideoExtensions| && EndsWith(name, VideoExtensions[e])
  }

  /** Every extension is a dot and three letters, so a video name is one whose
      last four characters are one of the four extensions. */
  lemma IsVideoFileBySuffix(name: string)
    ensures IsVideoFile(name) <==>
      |name| >= 4 && name[|name| - 4..] in {".mp4", ".avi", ".mov", ".mkv"}
  {
    if |name| >= 4 {
      var tail := name[|name| - 4..];
      if tail == ".mp4" { assert EndsWith(name, VideoExtensions[0]); }
      if tail == ".avi" { assert EndsWith(name, VideoExtensions[1]); }
      if tail == ".mov" { assert EndsWith(name, VideoExtensions[2]); }
      if tail == ".mkv" { assert EndsWith(name, VideoExtensions[3]); }
    }
  }

  /** `list_video_files(folder)`: nothing when the folder does not exist;
      otherwise exactly the video names of the listing, each as often as it
      is listed, in listing order. */
  function ListVideoFiles(folderExists: bool, listing: seq<string>): (r: seq<string>)
    ensures !folderExists ==> r == []
    ensures folderExists ==> Sequences.IsSubsequence(r, listing)
    ensures folderExists ==>
      forall name :: multiset(r)[name] == if IsVideoFile(name) then multiset(listing)[name] else 0
  {
    if !folderExists then [] else Sequences.Filter(listing, IsVideoFile)
  }
}
