/**
 The downloader's configuration: the calendar range and the table of file
 families with their frequency and the suffixes fetched per period.
 */
module Catalogue {
  import opened Naming

  datatype Frequency = Daily | Monthly

  /** One entry of `FILE_TYPES`. */
  datatype FileType = FileType(freq: Frequency, exts: seq<string>)

  /** `START_YEAR` and `END_YEAR`: the range is 1 January of the first to 31 December of the last. */
  const StartYear: nat := 2019
  const EndYear: nat := 2025

  /** The one daily family; it also has the annual archive. */
  const DailyCategory: string := "marginalpdbc"

  const FileTypes: map<string, FileType> := map[
    "marginalpdbc" := FileType(Daily, [".1", ".2", ".3"]),
    "pdbc" := FileType(Monthly, [".zip"]),
    "pdvd" := FileType(Monthly, [".zip"]),
    "pibci" := FileType(Monthly, [".zip"]),
    "trades" := FileType(Monthly, [".zip"])
  ]

  /** The suffixes of the daily family, read from the table. */
  const DailyExts: seq<string> := FileTypes[DailyCategory].exts

  /** The monthly families in the order the enumerator lists them (a literal list there). */
  const MonthlyKeys: seq<string> := ["pdbc", "pdvd", "pibci", "trades"]

  /**
   The literal key list of the monthly loop names exactly the monthly entries of
   the table, each fetched as one archive, and the daily family has three parts.
   */
  lemma TableAgreesWithLoops()
    ensures DailyCategory in FileTypes && FileTypes[DailyCategory].freq == Daily
    ensures DailyExts == [".1", ".2", ".3"]
    ensures forall k :: k in MonthlyKeys <==> k in FileTypes && FileTypes[k].freq == Monthly
    ensures forall k :: k in FileTypes && FileTypes[k].freq == Monthly ==> FileTypes[k].exts == [ArchiveExt]
    ensures forall i, j :: 0 <= i < j < |MonthlyKeys| ==> MonthlyKeys[i] != MonthlyKeys[j]
  {
  }
}
