/** Label extraction (server/tracker/views.py, `_label_from_event`): one
    human-readable label per raw event, tried in the order
    URL host, file basename, window title (cut to 80), app name, "Unknown". */
module Labels {
  import opened Common
  import opened Entities

  const TitleLimit: nat := 80
  const UnknownLabel: string := "Unknown"

  /** `s.rstrip("/")`: s with every trailing '/' removed. */
  function StripTrailingSlashes(s: string): (r: string)
    ensures IsPrefix(r, s)
    ensures r == [] || r[|r| - 1] != '/'
    ensures forall i :: |r| <= i < |s| ==> s[i] == '/'
    decreases |s|
  {
    if |s| > 0 && s[|s| - 1] == '/' then StripTrailingSlashes(s[..|s| - 1]) else s
  }

  /** `s.split("/")[-1]`: the longest suffix of s that holds no '/'. */
  function LastSegment(s: string): (r: string)
    ensures IsSuffix(r, s)
    ensures '/' !in r
    ensures |r| == |s| || s[|s| - |r| - 1] == '/'
    decreases |s|
  {
    if |s| == 0 || s[|s| - 1] == '/' then ""
    else
      var init := s[..|s| - 1];
      var r0 := LastSegment(init);
      assert s[|s| - |r0| - 1..] == init[|init| - |r0|..] + [s[|s| - 1]];
      r0 + [s[|s| - 1]]
  }

  /** The file-path label: the last '/'-segment after the trailing '/'s are dropped. */
  function Basename(path: string): string {
    LastSegment(StripTrailingSlashes(path))
  }

  /** `_label_from_event(e)`. `hostOf(url)` stands for
      `urllib.parse.urlparse(url).hostname or ""`, with "" also standing for
      a parse that raised. */
  function Label(e: RawEvent, hostOf: string -> string): string {
    if Truthy(e.url) && hostOf(e.url.value) != "" then hostOf(e.url.value)
    else if Truthy(e.filePath) then Basename(e.filePath.value)
    else if Truthy(e.windowTitle) then Take(e.windowTitle.value, TitleLimit)
    else Or(e.appName, UnknownLabel)
  }

  /** The label priority, each source with the shape of what it yields:
      the host; else the whole segment after the path's last '/', once the
      trailing '/'s are dropped; else the first 80 characters of the title
      (all of it when shorter); else the app name or "Unknown". */
  lemma LabelPriority(e: RawEvent, hostOf: string -> string)
    ensures var r := Label(e, hostOf);
      && (Truthy(e.url) && hostOf(e.url.value) != "" ==> r == hostOf(e.url.value))
      && (!(Truthy(e.url) && hostOf(e.url.value) != "") && Truthy(e.filePath) ==>
            var s := StripTrailingSlashes(e.filePath.value);
            '/' !in r && IsSuffix(r, s) && (|r| == |s| || s[|s| - |r| - 1] == '/'))
      && (!(Truthy(e.url) && hostOf(e.url.value) != "") && !Truthy(e.filePath) && Truthy(e.windowTitle) ==>
            var t := e.windowTitle.value;
            IsPrefix(r, t) && |r| == (if |t| <= TitleLimit then |t| else TitleLimit))
      && (!(Truthy(e.url) && hostOf(e.url.value) != "") && !Truthy(e.filePath) && !Truthy(e.windowTitle) ==>
            r == (if Truthy(e.appName) then e.appName.value else UnknownLabel))
  {
  }

  /** A label is empty only when it came from a file path made of nothing
      but '/' characters ("/" labels a block with the empty title). */
  lemma EmptyLabelOnlyFromSlashPath(e: RawEvent, hostOf: string -> string)
    requires Label(e, hostOf) == ""
    ensures !(Truthy(e.url) && hostOf(e.url.value) != "")
    ensures Truthy(e.filePath)
    ensures forall i :: 0 <= i < |e.filePath.value| ==> e.filePath.value[i] == '/'
  {
  }
}
