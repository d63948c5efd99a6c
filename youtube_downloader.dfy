/**
 * Turning downloaded WebVTT subtitle files into plain transcript files:
 * drop the WebVTT syntax lines, collapse whitespace, and write a three-line
 * header (title, URL, separator) and a blank line before the text.
 */
module YoutubeDownloader {
  import opened Wrappers
  import opened Text
  import opened Sequences

  /** A stripped subtitle line that is transcript text rather than WebVTT syntax:
      not empty, not the file header, not a NOTE block, not a cue timing line,
      not a cue number and not a tag line. */
  predicate IsTextLine(line: string) {
    && |line| > 0
    && !StartsWith(line, "WEBVTT")
    && !StartsWith(line, "NOTE")
    && !Occurs(line, "-->")
    && !IsDigits(line)
    && !StartsWith(line, "<")
  }

  /** What one subtitle line contributes: its stripped form, if that is text. */
  function KeptLine(line: string): Option<string> {
    var s := Strip(line);
    if IsTextLine(s) then Some(s) else None
  }

  /** The stripped text lines of a subtitle file, in file order. */
  function TextLines(lines: seq<string>): seq<string> {
    FilterMap(lines, KeptLine)
  }

  /** The line filter of the conversion loop. */
  method FilterTextLines(lines: seq<string>) returns (textLines: seq<string>)
    ensures textLines == TextLines(lines)
  {
    textLines := [];
    for i := 0 to |lines|
      invariant textLines == TextLines(lines[..i])
    {
      var line := Strip(lines[i]);
      if IsTextLine(line) {
        textLines := textLines + [line];
      }
      assert lines[..i + 1][..i] == lines[..i];
    }
    assert lines[..|lines|] == lines;
  }

  /** A line is kept exactly when it is the stripped form of some input line that
      passes the filter; the kept lines of a file are those of its first part
      followed by those of the rest, so their relative order is the file's. */
  lemma TextLinesSpec(lines: seq<string>, a: seq<string>, b: seq<string>)
    ensures forall x :: x in TextLines(lines) ==>
      IsTextLine(x) && exists i :: 0 <= i < |lines| && Strip(lines[i]) == x
    ensures forall i :: 0 <= i < |lines| && IsTextLine(Strip(lines[i])) ==> Strip(lines[i]) in TextLines(lines)
    ensures TextLines(a + b) == TextLines(a) + TextLines(b)
  {
    FilterMapSpec(lines, KeptLine);
    forall x | x in TextLines(lines)
      ensures IsTextLine(x) && exists i :: 0 <= i < |lines| && Strip(lines[i]) == x
    {
      var i :| 0 <= i < |lines| && KeptLine(lines[i]) == Some(x);
      assert Strip(lines[i]) == x;
    }
    FilterMapAppend(a, b, KeptLine);
  }

  /** The cleaned transcript text of a subtitle file's content. */
  function CleanText(content: string): string {
    Normalize(Join(TextLines(Split(content, '\n')), " "))
  }

  /** Reads the subtitle lines, keeps the text lines, joins them with spaces and
      collapses whitespace. */
  method CleanVtt(content: string) returns (clean: string)
    ensures clean == CleanText(content)
  {
    var lines := Split(content, '\n');
    var textLines := FilterTextLines(lines);
    clean := Join(textLines, " ");
    clean := Normalize(clean);
  }

  /** The cleaned text has no surrounding whitespace, no whitespace but single
      spaces, and its words are those of the kept lines, in order. */
  lemma CleanTextSpec(content: string)
    ensures IsNormalized(CleanText(content))
    ensures Words(CleanText(content)) == WordsOfLines(TextLines(Split(content, '\n')))
  {
    var joined := Join(TextLines(Split(content, '\n')), " ");
    NormalizeIsNormalized(joined);
    WordsOfNormalize(joined);
    WordsOfSpaceJoin(TextLines(Split(content, '\n')));
  }

  const TitlePrefix := "Video Title: "
  const UrlPrefix := "Video URL: "
  const RuleWidth: nat := 50
  /** The separator line: fifty '=' characters. */
  const Rule := Repeat('=', RuleWidth)

  /** The content of a written transcript file: the title line, the URL line,
      the rule, an empty line and then the cleaned text, which ends the file. */
  function TranscriptText(title: string, url: string, clean: string): (text: string)
    ensures StartsWith(text, TitlePrefix + title)
    ensures |text| == |TitlePrefix| + |title| + |UrlPrefix| + |url| + RuleWidth + 4 + |clean|
    ensures text[|text| - |clean|..] == clean
  {
    TitlePrefix + title + "\n" + UrlPrefix + url + "\n" + Rule + "\n\n" + clean
  }

  /** The fields of a video's info JSON that the conversion reads, when present. */
  datatype VideoInfo = VideoInfo(title: Option<string>, webpageUrl: Option<string>)

  /** A downloaded subtitle file: its name, its content unless reading it failed,
      and its info JSON unless that is missing or unreadable. */
  datatype VttFile = VttFile(name: string, content: Option<string>, info: Option<VideoInfo>)

  datatype TextFile = TextFile(name: string, text: string)

  /** PurePath.stem: the name without its last suffix; a leading dot or a
      trailing dot does not start a suffix. */
  function Stem(name: string): string {
    var i := LastIndexOf(name, '.');
    if 0 < i < |name| - 1 then name[..i] else name
  }

  /** A subtitle file's stem is its name without ".vtt"; a file named only
      ".vtt" has no suffix and keeps its whole name. */
  lemma StemOfVtt(base: string)
    ensures |base| > 0 ==> Stem(base + ".vtt") == base
    ensures Stem(".vtt") == ".vtt"
  {
    var name := base + ".vtt";
    assert name[|base|] == '.' && name[|base| + 1..] == "vtt";
    assert name[..|base|] == base;
    assert LastIndexOf(name, '.') == |base|;
    assert LastIndexOf(".vtt", '.') == 0;
  }

  /** Title and URL of the header: from the info JSON when it was read, else the
      stem and the empty string. */
  function TitleAndUrl(stem: string, info: Option<VideoInfo>): (string, string) {
    match info
    case None => (stem, "")
    case Some(VideoInfo(title, url)) =>
      (match title case Some(t) => t case None => stem,
       match url case Some(u) => u case None => "")
  }

  /** The file written for one subtitle file, or None when reading it failed. A
      written file is named after the stem and ends with the cleaned text. */
  function Converted(file: VttFile): (out: Option<TextFile>)
    ensures out.Some? <==> file.content.Some?
    ensures out.Some? ==> out.value.name == Stem(file.name) + ".txt"
    ensures out.Some? ==> var t, c := out.value.text, CleanText(file.content.value);
      |c| <= |t| && t[|t| - |c|..] == c
  {
    match file.content
    case None => None
    case Some(content) =>
      var stem := Stem(file.name);
      var (title, url) := TitleAndUrl(stem, file.info);
      Some(TextFile(stem + ".txt", TranscriptText(title, url, CleanText(content))))
  }

  /** The files written for a folder of subtitle files, in processing order. */
  function ConvertedFiles(files: seq<VttFile>): seq<TextFile> {
    FilterMap(files, Converted)
  }

  /** convert_vtt_to_txt: converts every subtitle file; one that cannot be read is skipped. */
  method ConvertVttToTxt(files: seq<VttFile>) returns (written: seq<TextFile>)
    ensures written == ConvertedFiles(files)
  {
    written := [];
    for i := 0 to |files|
      invariant written == ConvertedFiles(files[..i])
    {
      assert files[..i + 1][..i] == files[..i];
      var file := files[i];
      if file.content.Some? {
        var clean := CleanVtt(file.content.value);
        var stem := Stem(file.name);
        var (title, url) := TitleAndUrl(stem, file.info);
        written := written + [TextFile(stem + ".txt", TranscriptText(title, url, clean))];
      }
    }
    assert files[..|files|] == files;
  }

  /** Every readable subtitle file yields exactly one written file, named after its
      stem; nothing else is written. */
  lemma ConvertedFilesSpec(files: seq<VttFile>)
    ensures |ConvertedFiles(files)| <= |files|
    ensures (forall i :: 0 <= i < |files| ==> files[i].content.Some?) ==> |ConvertedFiles(files)| == |files|
    ensures forall f :: f in ConvertedFiles(files) ==>
      exists i :: 0 <= i < |files| && files[i].content.Some? && Converted(files[i]) == Some(f)
    ensures forall i :: 0 <= i < |files| && files[i].content.Some? ==> Converted(files[i]).value in ConvertedFiles(files)
    ensures forall f :: f in ConvertedFiles(files) ==>
      exists i :: 0 <= i < |files| && f.name == Stem(files[i].name) + ".txt"
  {
    FilterMapSpec(files, Converted);
  }

  /** Without a readable info JSON the header names the stem and an empty URL. */
  lemma ConvertedWithoutInfo(file: VttFile)
    requires file.content.Some? && file.info.None?
    ensures Converted(file) == Some(TextFile(Stem(file.name) + ".txt",
      TranscriptText(Stem(file.name), "", CleanText(file.content.value))))
  {
  }

  /** process_youtube_playlist: converts only after a successful download, and
      reports exactly the download's outcome. */
  method ProcessYoutubePlaylist(downloaded: bool, files: seq<VttFile>) returns (ok: bool, written: seq<TextFile>)
    ensures ok == downloaded
    ensures written == if downloaded then ConvertedFiles(files) else []
  {
    if downloaded {
      written := ConvertVttToTxt(files);
      ok := true;
    } else {
      written := [];
      ok := false;
    }
  }
}
