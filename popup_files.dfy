/**
 * The names of the files the popup downloads, built from clock readings that
 * are inputs here: `toISOString()` for the compressed download and, for the
 * plain downloads, `toISOString()` and `toTimeString()`.
 */
module PopupFiles {
  import opened JsString

  const CompressedPrefix := "compressed_claude_conversation_"
  const PlainPrefix := "claude_conversation_"

  /**
   * The timestamp of a compressed download: in the ISO time, the first `T`
   * becomes `_` and every `:` becomes `-`, and everything from the first `.` on
   * is dropped, so it holds no `:` and no `.`.
   */
  function CompressedStamp(iso: string): (r: string)
    ensures |r| <= |iso| && ':' !in r && '.' !in r
  {
    var replaced := ReplaceAll(ReplaceFirst(iso, 'T', '_'), ':', '-');
    ReplaceAllEach(ReplaceFirst(iso, 'T', '_'), ':', '-');
    BeforeFirst(replaced, '.')
  }

  /**
   * The stamp is, position for position, the ISO time up to its first `.`, with
   * the first `T` shown as `_` and each `:` as `-`.
   */
  lemma CompressedStampEach(iso: string)
    ensures var r := CompressedStamp(iso);
      '.' !in iso[..|r|] && (|r| < |iso| ==> iso[|r|] == '.')
      && forall k :: 0 <= k < |r| ==>
        r[k] == (if iso[k] == ':' then '-' else if iso[k] == 'T' && 'T' !in iso[..k] then '_' else iso[k])
  {
    var swapped := ReplaceFirst(iso, 'T', '_');
    var replaced := ReplaceAll(swapped, ':', '-');
    ReplaceFirstEach(iso, 'T', '_');
    ReplaceAllEach(swapped, ':', '-');
    var r := CompressedStamp(iso);
    assert forall k :: 0 <= k < |iso| ==> (replaced[k] == '.' <==> iso[k] == '.');
    assert forall k :: 0 <= k < |r| ==> r[k] == replaced[k];
    assert forall k :: 0 <= k < |r| ==> iso[..|r|][k] == iso[k];
  }

  /** `downloadCompressedMarkdown`'s file name: the prefix, the stamp, `.md`; it holds no `:`. */
  function CompressedFilename(iso: string): (r: string)
    ensures ':' !in r
  {
    CompressedPrefix + CompressedStamp(iso) + ".md"
  }

  /** A piece of an ISO timestamp between its separators: no `T`, `:` or `.`. */
  predicate Field(p: string) {
    'T' !in p && ':' !in p && '.' !in p
  }

  /**
   * An ISO time `date`T`hh`:`mm`:`ss`.`rest` (`rest` being milliseconds and zone)
   * gives the stamp `date`_`hh`-`mm`-`ss`.
   */
  lemma CompressedStampOfIso(date: string, hh: string, mm: string, ss: string, rest: string)
    requires Field(date) && Field(hh) && Field(mm) && Field(ss)
    ensures CompressedStamp(date + "T" + hh + ":" + mm + ":" + ss + "." + rest)
      == date + "_" + hh + "-" + mm + "-" + ss
  {
    var iso := date + "T" + hh + ":" + mm + ":" + ss + "." + rest;
    SwapFirstT(date, hh, mm, ss, rest);
    DashClock(date, hh, mm, ss, rest);
    ReplaceAllAfterFree(ss + ['.'], rest, ':', '-');
    var stamp := date + "_" + hh + "-" + mm + "-" + ss;
    assert date + "_" + hh + "-" + mm + "-" + (ss + ['.'] + ReplaceAll(rest, ':', '-'))
      == stamp + ['.'] + ReplaceAll(rest, ':', '-');
    BeforeFirstAt(stamp, '.', ReplaceAll(rest, ':', '-'));
    assert CompressedStamp(iso) == BeforeFirst(ReplaceAll(ReplaceFirst(iso, 'T', '_'), ':', '-'), '.');
  }

  /** The `T` of an ISO time is its first one: it becomes `_`. */
  lemma SwapFirstT(date: string, hh: string, mm: string, ss: string, rest: string)
    requires Field(date)
    ensures ReplaceFirst(date + "T" + hh + ":" + mm + ":" + ss + "." + rest, 'T', '_')
      == date + ['_'] + (hh + ":" + mm + ":" + ss + ['.'] + rest)
  {
    var clock := hh + ":" + mm + ":" + ss;
    assert date + "T" + hh + ":" + mm + ":" + ss + "." + rest == date + ['T'] + (clock + ['.'] + rest);
    ReplaceFirstAt(date, 'T', '_', clock + ['.'] + rest);
  }

  /** The two colons of the clock become dashes. */
  lemma DashClock(date: string, hh: string, mm: string, ss: string, rest: string)
    requires Field(date) && Field(hh) && Field(mm)
    ensures ReplaceAll(date + ['_'] + (hh + ":" + mm + ":" + ss + ['.'] + rest), ':', '-')
      == date + "_" + hh + "-" + mm + "-" + ReplaceAll(ss + ['.'] + rest, ':', '-')
  {
    var p := date + "_" + hh;
    var q := ss + ['.'] + rest;
    assert date + ['_'] + (hh + ":" + mm + ":" + ss + ['.'] + rest) == p + [':'] + (mm + [':'] + q);
    ReplaceAllSep(p, mm + [':'] + q, ':', '-');
    ReplaceAllSep(mm, q, ':', '-');
  }

  /**
   * The date and time parts of a plain download's name: the ISO time up to its
   * first `T`, and the local time string up to its first space with every `:`
   * turned into `-`; the time part holds no `:`.
   */
  function PlainStamp(iso: string, timeString: string): (r: string)
    ensures var time := ReplaceAll(BeforeFirst(timeString, ' '), ':', '-');
      r == BeforeFirst(iso, 'T') + "_" + time && ':' !in time
  {
    var dateStr := Split(iso, 'T')[0];
    var timeStr := ReplaceAll(Split(timeString, ' ')[0], ':', '-');
    SplitFront(iso, 'T');
    SplitFront(timeString, ' ');
    ReplaceAllRemoves(Split(timeString, ' ')[0], ':', '-');
    dateStr + "_" + timeStr
  }

  /** `downloadMarkdown`'s and `downloadJSON`'s file name, with extension `md` or `json`. */
  function PlainFilename(iso: string, timeString: string, extension: string): (r: string)
  {
    PlainPrefix + PlainStamp(iso, timeString) + "." + extension
  }

  /** A plain download's name has no `:` when the date part of the ISO time has none, as ISO dates do not. */
  lemma PlainFilenameNoColon(iso: string, timeString: string, extension: string)
    requires ':' !in BeforeFirst(iso, 'T') && ':' !in extension
    ensures ':' !in PlainFilename(iso, timeString, extension)
  {
  }
}
