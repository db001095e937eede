/** Configuration (src/Config.c): defaults, the ini handler that stores
    `[Video]` keys, and the normalisation of negative values. Parsing of the
    file is outside the model: its result is the sequence of entries
    ini_parse hands to the handler, values already converted by atoi. */
module Configs {
  import opened Common

  datatype VideoConfig = VideoConfig(height: I32, width: I32, fullscreen: I8, limitFps: I8, fps: I8)

  datatype Config = Config(video: VideoConfig)

  /** One `name = value` line of section `section`, as the handler sees it. */
  datatype Entry = Entry(section: string, name: string, value: I32)

  /** The values InitConfig starts from. */
  const DEFAULTS: Config := Config(VideoConfig(600, 800, 0, 1, 60))

  /** The handler's result: the updated configuration and its return value. */
  datatype Handled = Handled(config: Config, status: int)

  /** _Handler: an exact match on section "Video" and one of five names
      overwrites that field with the value, narrowed to the field's width. */
  function Handler(c: Config, e: Entry): (r: Handled)
    ensures r.status == 1 || r.status == 0
    ensures r.status == 1 <==> e.section == "Video" && e.name in {"width", "height", "fullscreen", "fps", "limitFPS"}
    ensures r.status == 0 ==> r.config == c
    ensures r.status == 1 ==> e.name == "width" ==> r.config.video == c.video.(width := e.value)
    ensures r.status == 1 ==> e.name == "height" ==> r.config.video == c.video.(height := e.value)
    ensures r.status == 1 ==> e.name == "fullscreen" ==> r.config.video == c.video.(fullscreen := ToI8(e.value))
    ensures r.status == 1 ==> e.name == "fps" ==> r.config.video == c.video.(fps := ToI8(e.value))
    ensures r.status == 1 ==> e.name == "limitFPS" ==> r.config.video == c.video.(limitFps := ToI8(e.value))
  {
    var v := c.video;
    if e.section != "Video" then Handled(c, 0)
    else if e.name == "width" then Handled(Config(v.(width := e.value)), 1)
    else if e.name == "height" then Handled(Config(v.(height := e.value)), 1)
    else if e.name == "fullscreen" then Handled(Config(v.(fullscreen := ToI8(e.value))), 1)
    else if e.name == "fps" then Handled(Config(v.(fps := ToI8(e.value))), 1)
    else if e.name == "limitFPS" then Handled(Config(v.(limitFps := ToI8(e.value))), 1)
    else Handled(c, 0)
  }

  /** The handler applied to every entry in file order; entries outside
      `[Video]` change nothing. */
  function ApplyEntries(c: Config, entries: seq<Entry>): (r: Config)
    ensures (forall i :: 0 <= i < |entries| ==> entries[i].section != "Video") ==> r == c
    decreases |entries|
  {
    if |entries| == 0 then c
    else ApplyEntries(Handler(c, entries[0]).config, entries[1..])
  }

  /** The value of the last `[Video] name` entry, if any: an independent
      reading of "the last matching line wins". */
  function LastValue(entries: seq<Entry>, name: string): Option<I32>
    decreases |entries|
  {
    if |entries| == 0 then None
    else
      var e := entries[|entries| - 1];
      if e.section == "Video" && e.name == name then Some(e.value)
      else LastValue(entries[..|entries| - 1], name)
  }

  /** Each field ends with the value of its last matching entry; fields with
      no matching entry keep their value. */
  lemma {:induction false} LastEntryWins(c: Config, entries: seq<Entry>)
    ensures var r := ApplyEntries(c, entries).video;
      && r.width == (match LastValue(entries, "width") case Some(x) => x case None => c.video.width)
      && r.height == (match LastValue(entries, "height") case Some(x) => x case None => c.video.height)
      && r.fullscreen == (match LastValue(entries, "fullscreen") case Some(x) => ToI8(x) case None => c.video.fullscreen)
      && r.fps == (match LastValue(entries, "fps") case Some(x) => ToI8(x) case None => c.video.fps)
      && r.limitFps == (match LastValue(entries, "limitFPS") case Some(x) => ToI8(x) case None => c.video.limitFps)
    decreases |entries|
  {
    if |entries| > 0 {
      var n := |entries| - 1;
      ApplyEntriesSnoc(c, entries[..n], entries[n]);
      assert entries[..n] + [entries[n]] == entries;
      LastEntryWins(c, entries[..n]);
    }
  }

  /** Applying one more entry at the end is one more handler call. */
  lemma {:induction false} ApplyEntriesSnoc(c: Config, entries: seq<Entry>, e: Entry)
    ensures ApplyEntries(c, entries + [e]) == Handler(ApplyEntries(c, entries), e).config
    decreases |entries|
  {
    if |entries| == 0 {
      assert [e][1..] == [];
    } else {
      assert (entries + [e])[1..] == entries[1..] + [e];
      ApplyEntriesSnoc(Handler(c, entries[0]).config, entries[1..], e);
    }
  }

  /** Negative fps, height and width are replaced by their absolute values,
      narrowed back to the field's width; the other fields are untouched. */
  function Normalise(v: VideoConfig): (r: VideoConfig)
    ensures r.fullscreen == v.fullscreen && r.limitFps == v.limitFps
    ensures v.fps >= 0 ==> r.fps == v.fps
    ensures v.height >= 0 ==> r.height == v.height
    ensures v.width >= 0 ==> r.width == v.width
    ensures -0x80 < v.fps < 0 ==> r.fps == -v.fps
    ensures -0x8000_0000 < v.height < 0 ==> r.height == -v.height
    ensures -0x8000_0000 < v.width < 0 ==> r.width == -v.width
  {
    var fps := if 0 > v.fps then ToI8(Abs(v.fps)) else v.fps;
    var height := if 0 > v.height then ToI32(Abs(v.height)) else v.height;
    var width := if 0 > v.width then ToI32(Abs(v.width)) else v.width;
    v.(fps := fps, height := height, width := width)
  }

  /** fps ends non-negative exactly when it did not start at -128: abs(-128)
      does not fit back into an int8_t. */
  lemma NormalisedFpsNonNegativeIff(v: VideoConfig)
    ensures Normalise(v).fps >= 0 <==> v.fps != -0x80
    ensures v.fps == -0x80 ==> Normalise(v).fps == -0x80
  {
  }

  lemma NormaliseIdempotent(v: VideoConfig)
    ensures Normalise(Normalise(v)) == Normalise(v)
  {
  }

  /** InitConfig: defaults, then the file's entries, then normalisation. */
  function InitConfig(entries: seq<Entry>): (r: Config)
    ensures entries == [] ==> r == DEFAULTS
    ensures r.video.fullscreen == ApplyEntries(DEFAULTS, entries).video.fullscreen
    ensures r.video.limitFps == ApplyEntries(DEFAULTS, entries).video.limitFps
    ensures r.video.height != -0x8000_0000 ==> r.video.height >= 0
    ensures r.video.width != -0x8000_0000 ==> r.video.width >= 0
    ensures r.video.fps != -0x80 ==> r.video.fps >= 0
  {
    Config(Normalise(ApplyEntries(DEFAULTS, entries).video))
  }
}
