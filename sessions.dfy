/**
 * The account list of the main window (TelecallApp.load_sessions): of the file
 * names in the bots directory, those that start with "session_" and do not end
 * with ".json" name a stored session, and the account name is the file name
 * without that prefix. The settings form names a session "bots/session_<name>";
 * the client library stores it under that name with ".session" appended, so a
 * listed name carries that suffix. The model takes the listing as given.
 */
module Sessions {

  const SessionPrefix: string := "session_"
  const JsonSuffix: string := ".json"

  /** str.startswith. */
  predicate StartsWith(s: string, prefix: string) {
    |prefix| <= |s| && s[..|prefix|] == prefix
  }

  /** str.endswith. */
  predicate EndsWith(s: string, suffix: string) {
    |suffix| <= |s| && s[|s| - |suffix|..] == suffix
  }

  /** The file test of load_sessions. */
  predicate IsSessionFile(file: string) {
    StartsWith(file, SessionPrefix) && !EndsWith(file, JsonSuffix)
  }

  /** `pat` occurs nowhere in `s`. */
  predicate Free(s: string, pat: string) {
    forall i :: 0 <= i <= |s| ==> !StartsWith(s[i..], pat)
  }

  /**
   * str.replace(pat, repl): every occurrence of `pat`, found from left to right
   * without overlaps, is replaced by `repl`. Removing shortens, and a string in
   * which `pat` does not occur comes back unchanged.
   */
  function ReplaceAll(s: string, pat: string, repl: string): (r: string)
    requires pat != []
    ensures repl == [] ==> |r| <= |s|
    ensures Free(s, pat) ==> r == s
    decreases |s|
  {
    if |s| < |pat| then s
    else if s[..|pat|] == pat then
      assert s[0..] == s;
      repl + ReplaceAll(s[|pat|..], pat, repl)
    else
      assert Free(s, pat) ==> Free(s[1..], pat) by {
        if Free(s, pat) {
          forall i | 0 <= i <= |s[1..]| ensures !StartsWith(s[1..][i..], pat) {
            assert s[1..][i..] == s[i + 1..];
          }
        }
      }
      [s[0]] + ReplaceAll(s[1..], pat, repl)
  }

  /** load_sessions as written: the account name is the file name with every "session_" removed. */
  function SessionNamesAsWritten(files: seq<string>): (names: seq<string>)
    ensures |names| <= |files|
  {
    if files == [] then []
    else
      var rest := SessionNamesAsWritten(files[1..]);
      if IsSessionFile(files[0]) then [ReplaceAll(files[0], SessionPrefix, [])] + rest else rest
  }

  /** The account name a session file stands for: the file name without its prefix. */
  function SessionName(file: string): (name: string)
    requires StartsWith(file, SessionPrefix)
    ensures SessionPrefix + name == file
  {
    file[|SessionPrefix|..]
  }

  /** load_sessions with the prefix removed only at the front, as the file naming intends. */
  function SessionNames(files: seq<string>): (names: seq<string>)
    ensures |names| <= |files|
  {
    if files == [] then []
    else
      var rest := SessionNames(files[1..]);
      if IsSessionFile(files[0]) then [SessionName(files[0])] + rest else rest
  }

  /** An occurrence at the front is replaced, and scanning goes on after it. */
  lemma ReplaceAtFront(pat: string, t: string, repl: string)
    requires pat != []
    ensures ReplaceAll(pat + t, pat, repl) == repl + ReplaceAll(t, pat, repl)
  {
    assert (pat + t)[..|pat|] == pat;
    assert (pat + t)[|pat|..] == t;
  }

  /**
   * An account saved under the name "session_1" has the file "session_session_1";
   * the code as written lists it as "1", a name whose file does not exist.
   */
  lemma AsWrittenMangles()
    ensures SessionNamesAsWritten(["session_session_1"]) == ["1"]
    ensures SessionNames(["session_session_1"]) == ["session_1"]
  {
    var f := "session_session_1";
    MangledFileIsSession();
    MangledReplace();
    SingleFile(f);
    assert SessionName(f) == "session_1" by {
      assert f == SessionPrefix + "session_1";
    }
  }

  /** A directory holding one session file lists one name under either reading. */
  lemma SingleFile(f: string)
    requires IsSessionFile(f)
    ensures SessionNamesAsWritten([f]) == [ReplaceAll(f, SessionPrefix, [])]
    ensures SessionNames([f]) == [SessionName(f)]
  {
    var one: seq<string> := [f];
    assert one[1..] == [];
  }

  lemma MangledFileIsSession()
    ensures IsSessionFile("session_session_1")
  {
    var f := "session_session_1";
    assert f[..8] == SessionPrefix;
    assert f[|f| - 5..] == "ion_1";
  }

  lemma MangledReplace()
    ensures ReplaceAll("session_session_1", SessionPrefix, []) == "1"
  {
    assert "session_session_1" == SessionPrefix + (SessionPrefix + "1");
    ReplaceAtFront(SessionPrefix, SessionPrefix + "1", []);
    ReplaceAtFront(SessionPrefix, "1", []);
  }

  /**
   * A session saved under any name that does not end in ".json" is listed under
   * that very name, and only session files are listed.
   */
  lemma SessionNameRoundTrip(name: string)
    requires !EndsWith(SessionPrefix + name, JsonSuffix)
    ensures SessionNames([SessionPrefix + name]) == [name]
  {
    var f := SessionPrefix + name;
    assert f[..|SessionPrefix|] == SessionPrefix;
    assert f[|SessionPrefix|..] == name;
    var one: seq<string> := [f];
    assert one[1..] == [];
  }

  /**
   * Every listed name is the name of a session file of the directory, and every
   * session file of the directory is listed under its name.
   */
  lemma {:induction false} SessionNamesFrom(files: seq<string>)
    ensures forall j :: 0 <= j < |SessionNames(files)| ==>
              var f := SessionPrefix + SessionNames(files)[j]; f in files && IsSessionFile(f)
    ensures forall k :: 0 <= k < |files| && IsSessionFile(files[k]) ==> SessionName(files[k]) in SessionNames(files)
  {
    if files != [] {
      SessionNamesFrom(files[1..]);
      var names := SessionNames(files);
      var rest := SessionNames(files[1..]);
      var head := if IsSessionFile(files[0]) then [SessionName(files[0])] else [];
      assert names == head + rest;
      forall j | 0 <= j < |names|
        ensures var f := SessionPrefix + names[j]; f in files && IsSessionFile(f)
      {
        if j >= |head| {
          assert names[j] == rest[j - |head|];
        }
      }
      forall k | 0 <= k < |files| && IsSessionFile(files[k]) ensures SessionName(files[k]) in names {
        if k > 0 {
          assert files[k] == files[1..][k - 1];
        }
      }
    }
  }
}
