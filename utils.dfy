/** The file listing and the month input check (backend/modules/utils.py). */
module Utils {
  import opened Common

  // ---------------------------------------------------------------------
  // list_files_recursive
  // ---------------------------------------------------------------------

  /** One step of os.walk: a directory and the names of the files in it. A
      walk that fails part way is the directories it yielded before the
      failure. */
  datatype Directory = Directory(path: string, files: seq<string>)

  /** The extensions used when none are given. */
  const DefaultExtensions: seq<string> := [".png", ".jpg", ".jpeg", ".gif", ".bmp", ".heic"]

  /** file.lower().endswith(tuple(extensions)) */
  predicate HasExtension(name: string, extensions: seq<string>)
  {
    exists e :: e in extensions && EndsWith(Lower(name), e)
  }

  /** The paths of the kept files among `files`, in order. */
  function KeptPaths(dir: string, files: seq<string>, extensions: seq<string>, join: (string, string) -> string): seq<string>
  {
    if files == [] then []
    else
      var last := files[|files| - 1];
      KeptPaths(dir, files[..|files| - 1], extensions, join) + (if HasExtension(last, extensions) then [join(dir, last)] else [])
  }

  /** The paths of the kept files of a walk, directory by directory. */
  function Listed(walk: seq<Directory>, extensions: seq<string>, join: (string, string) -> string): seq<string>
  {
    if walk == [] then []
    else
      var d := walk[|walk| - 1];
      Listed(walk[..|walk| - 1], extensions, join) + KeptPaths(d.path, d.files, extensions, join)
  }

  /** The extensions in force: the given list, or the default list when
      none is given (an empty list is given, and keeps nothing). */
  function EffectiveExtensions(extensions: Option<seq<string>>): seq<string>
  {
    if extensions.None? then DefaultExtensions else extensions.value
  }

  /** list_files_recursive over the directories the walk yields. */
  method ListFilesRecursive(walk: seq<Directory>, extensions: Option<seq<string>>, join: (string, string) -> string)
    returns (paths: seq<string>)
    ensures paths == Listed(walk, EffectiveExtensions(extensions), join)
  {
    var exts := EffectiveExtensions(extensions);
    paths := [];
    for k := 0 to |walk|
      invariant paths == Listed(walk[..k], exts, join)
    {
      var d := walk[k];
      ghost var before := paths;
      for i := 0 to |d.files|
        invariant paths == before + KeptPaths(d.path, d.files[..i], exts, join)
      {
        assert d.files[..i + 1][..i] == d.files[..i];
        if HasExtension(d.files[i], exts) {
          paths := paths + [join(d.path, d.files[i])];
        }
      }
      assert d.files[..|d.files|] == d.files;
      assert walk[..k + 1][..k] == walk[..k];
    }
    assert walk[..|walk|] == walk;
  }

  lemma {:induction false} KeptPathsSpec(dir: string, files: seq<string>, extensions: seq<string>,
                                         join: (string, string) -> string, p: string)
    ensures p in KeptPaths(dir, files, extensions, join) <==>
      exists i :: 0 <= i < |files| && HasExtension(files[i], extensions) && p == join(dir, files[i])
  {
    if files != [] {
      var init := files[..|files| - 1];
      KeptPathsSpec(dir, init, extensions, join, p);
      if exists i :: 0 <= i < |init| && HasExtension(init[i], extensions) && p == join(dir, init[i]) {
        var i :| 0 <= i < |init| && HasExtension(init[i], extensions) && p == join(dir, init[i]);
        assert files[i] == init[i];
      }
      if exists i :: 0 <= i < |files| && HasExtension(files[i], extensions) && p == join(dir, files[i]) {
        var i :| 0 <= i < |files| && HasExtension(files[i], extensions) && p == join(dir, files[i]);
        if i < |init| {
          assert init[i] == files[i];
        }
      }
    }
  }

  /** A path listed from one of the walked directories. */
  predicate WalkedPath(walk: seq<Directory>, extensions: seq<string>, join: (string, string) -> string, p: string)
  {
    exists k, i :: 0 <= k < |walk| && 0 <= i < |walk[k].files| &&
      HasExtension(walk[k].files[i], extensions) && p == join(walk[k].path, walk[k].files[i])
  }

  /** The walked paths of a walk are those of all but its last directory,
      and those kept from the last one. */
  lemma WalkedPathSnoc(walk: seq<Directory>, extensions: seq<string>, join: (string, string) -> string, p: string)
    requires walk != []
    ensures var d := walk[|walk| - 1];
      WalkedPath(walk, extensions, join, p) <==>
        WalkedPath(walk[..|walk| - 1], extensions, join, p) ||
        exists i :: 0 <= i < |d.files| && HasExtension(d.files[i], extensions) && p == join(d.path, d.files[i])
  {
    var init := walk[..|walk| - 1];
    if WalkedPath(init, extensions, join, p) {
      var k, i :| 0 <= k < |init| && 0 <= i < |init[k].files| &&
        HasExtension(init[k].files[i], extensions) && p == join(init[k].path, init[k].files[i]);
      assert walk[k] == init[k];
    }
    if WalkedPath(walk, extensions, join, p) {
      var k, i :| 0 <= k < |walk| && 0 <= i < |walk[k].files| &&
        HasExtension(walk[k].files[i], extensions) && p == join(walk[k].path, walk[k].files[i]);
      if k < |init| {
        assert init[k] == walk[k];
      }
    }
  }

  /** The listing holds exactly the joined paths of the walked files whose
      lower-cased name ends with one of the extensions. */
  lemma {:induction false} ListedSpec(walk: seq<Directory>, extensions: seq<string>,
                                      join: (string, string) -> string, p: string)
    ensures p in Listed(walk, extensions, join) <==>
      exists k, i :: 0 <= k < |walk| && 0 <= i < |walk[k].files| &&
        HasExtension(walk[k].files[i], extensions) && p == join(walk[k].path, walk[k].files[i])
  {
    if walk != [] {
      var d := walk[|walk| - 1];
      ListedSpec(walk[..|walk| - 1], extensions, join, p);
      KeptPathsSpec(d.path, d.files, extensions, join, p);
      WalkedPathSnoc(walk, extensions, join, p);
    }
  }

  /** A walk that stops early, on an error, lists a prefix of what the whole
      walk lists: the paths collected so far are returned. */
  lemma {:induction false} ListedTruncated(walk: seq<Directory>, k: nat, extensions: seq<string>,
                                           join: (string, string) -> string)
    requires k <= |walk|
    ensures |Listed(walk[..k], extensions, join)| <= |Listed(walk, extensions, join)|
    ensures Listed(walk, extensions, join)[..|Listed(walk[..k], extensions, join)|] == Listed(walk[..k], extensions, join)
    decreases |walk|
  {
    if k < |walk| {
      var init := walk[..|walk| - 1];
      assert init[..k] == walk[..k];
      ListedTruncated(init, k, extensions, join);
    } else {
      assert walk[..k] == walk;
    }
  }

  // ---------------------------------------------------------------------
  // get_month_input
  // ---------------------------------------------------------------------

  const MonthNames: seq<string> :=
    ["January", "February", "March", "April", "May", "June",
     "July", "August", "September", "October", "November", "December"]

  /** The input splits into exactly a month and a year, the year is four
      digits, and the capitalised month is an English month name. */
  predicate AcceptedMonthInput(s: string)
  {
    var words := Words(s);
    |words| == 2 && |words[1]| == 4 && AllDigits(words[1]) && Capitalize(words[0]) in MonthNames
  }

  /** The first answer the prompt accepts; an empty answer stands for the
      default month. */
  function FirstAccepted(answers: seq<string>, default: string): Option<string>
  {
    if answers == [] then None
    else
      var s := if answers[0] == "" then default else answers[0];
      if AcceptedMonthInput(s) then Some(s) else FirstAccepted(answers[1..], default)
  }

  /** get_month_input over the answers typed at the prompt, with `default`
      the month before the current date; None when the answers run out
      (input() then raises). */
  method GetMonthInput(answers: seq<string>, default: string) returns (monthYear: Option<string>)
    ensures monthYear == FirstAccepted(answers, default)
  {
    var i := 0;
    while i < |answers|
      invariant 0 <= i <= |answers|
      invariant FirstAccepted(answers[i..], default) == FirstAccepted(answers, default)
    {
      var s := answers[i];
      if s == "" {
        s := default;
      }
      if AcceptedMonthInput(s) {
        return Some(s);
      }
      assert answers[i..][1..] == answers[i + 1..];
      i := i + 1;
    }
    return None;
  }

  /** The answer the prompt takes for the j-th input. */
  function Answer(answers: seq<string>, default: string, j: nat): string
    requires j < |answers|
  {
    if answers[j] == "" then default else answers[j]
  }

  /** The prompt returns the first accepted answer. */
  lemma {:induction false} FirstAcceptedFound(answers: seq<string>, default: string)
    requires FirstAccepted(answers, default).Some?
    ensures AcceptedMonthInput(FirstAccepted(answers, default).value)
    ensures exists i ::
              && 0 <= i < |answers|
              && FirstAccepted(answers, default).value == Answer(answers, default, i)
              && (forall j :: 0 <= j < i ==> !AcceptedMonthInput(Answer(answers, default, j)))
  {
    var rest := answers[1..];
    if !AcceptedMonthInput(Answer(answers, default, 0)) {
      FirstAcceptedFound(rest, default);
      var i :| 0 <= i < |rest| && FirstAccepted(rest, default).value == Answer(rest, default, i) &&
        forall j :: 0 <= j < i ==> !AcceptedMonthInput(Answer(rest, default, j));
      assert Answer(answers, default, i + 1) == Answer(rest, default, i);
      forall j | 0 <= j < i + 1 ensures !AcceptedMonthInput(Answer(answers, default, j)) {
        if j > 0 {
          assert Answer(answers, default, j) == Answer(rest, default, j - 1);
        }
      }
    } else {
      assert FirstAccepted(answers, default).value == Answer(answers, default, 0);
    }
  }

  /** The prompt runs out exactly when no answer is accepted. */
  lemma {:induction false} FirstAcceptedNone(answers: seq<string>, default: string)
    ensures FirstAccepted(answers, default).None? <==>
      forall j :: 0 <= j < |answers| ==> !AcceptedMonthInput(Answer(answers, default, j))
  {
    if answers != [] {
      var rest := answers[1..];
      if AcceptedMonthInput(Answer(answers, default, 0)) {
        assert FirstAccepted(answers, default).Some?;
      } else {
        FirstAcceptedNone(rest, default);
        forall j | 0 < j < |answers| ensures Answer(answers, default, j) == Answer(rest, default, j - 1) { }
        forall j | 0 <= j < |rest| ensures Answer(rest, default, j) == Answer(answers, default, j + 1) { }
      }
    }
  }

  /** The returned month is an accepted answer exactly as it was typed (or
      the default for an empty answer), and every earlier answer was rejected. */
  lemma FirstAcceptedSpec(answers: seq<string>, default: string)
    ensures FirstAccepted(answers, default).Some? ==>
      AcceptedMonthInput(FirstAccepted(answers, default).value) &&
      exists i :: 0 <= i < |answers| &&
        FirstAccepted(answers, default).value == (if answers[i] == "" then default else answers[i]) &&
        forall j :: 0 <= j < i ==> !AcceptedMonthInput(if answers[j] == "" then default else answers[j])
    ensures FirstAccepted(answers, default).None? <==>
      forall j :: 0 <= j < |answers| ==> !AcceptedMonthInput(if answers[j] == "" then default else answers[j])
  {
    if FirstAccepted(answers, default).Some? {
      FirstAcceptedFound(answers, default);
    }
    FirstAcceptedNone(answers, default);
  }

  /** A month word and a four-digit year joined by one space are accepted
      when the capitalised month is an English month name. */
  lemma MonthYearAccepted(month: string, year: string)
    requires month != [] && forall i :: 0 <= i < |month| ==> !IsSpace(month[i])
    requires |year| == 4 && AllDigits(year)
    requires Capitalize(month) in MonthNames
    ensures AcceptedMonthInput(month + " " + year)
  {
    forall i | 0 <= i < |year| ensures !IsSpace(year[i]) {
      assert IsDigit(year[i]);
    }
    WordsOfTwo(month, year);
  }

  /** A month typed with a long s is accepted and returned as typed:
      str.capitalize() title-cases 'ſ' (U+017F) to 'S'. */
  lemma LongSMonthAccepted(default: string)
    ensures AcceptedMonthInput("\U{17F}eptember 2024")
    ensures FirstAccepted(["\U{17F}eptember 2024"], default) == Some("\U{17F}eptember 2024")
  {
    var month, year := LongSMonthWords();
    MonthYearAccepted(month, year);
  }

  /** The two words of the long-s answer, with what acceptance asks of them. */
  lemma LongSMonthWords() returns (month: string, year: string)
    ensures month + " " + year == "\U{17F}eptember 2024"
    ensures month != [] && forall i :: 0 <= i < |month| ==> !IsSpace(month[i])
    ensures |year| == 4 && AllDigits(year)
    ensures Capitalize(month) == MonthNames[8]
  {
    month, year := "\U{17F}eptember", "2024";
    assert Capitalize(month) == [TitleChar(month[0])] + Lower(month[1..]);
    assert Lower(month[1..]) == "eptember";
  }
}
