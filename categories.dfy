/**
 * The categories `categorize_extension` gives the file names the large-file
 * scan reports: nine lists of lower-case extensions, and "Other" for every
 * extension on none of them.
 */
module Categories {
  const VideoExts: set<string> := {"mp4", "avi", "mkv", "mov", "wmv", "flv", "webm"}
  const AudioExts: set<string> := {"mp3", "flac", "wav", "aac", "ogg", "wma"}
  const ImageExts: set<string> := {"jpg", "jpeg", "png", "gif", "bmp", "tiff", "webp", "svg"}
  const ArchiveExts: set<string> := {"zip", "rar", "7z", "tar", "gz", "bz2", "xz"}
  const DiskImageExts: set<string> := {"iso", "img", "vhd", "vhdx"}
  const ApplicationExts: set<string> := {"exe", "msi", "dll"}
  const TextExts: set<string> := {"log", "txt", "csv"}
  const DocumentExts: set<string> := {"pdf", "doc", "docx", "xls", "xlsx", "ppt", "pptx"}
  const BackupExts: set<string> := {"bak", "tmp", "dmp", "old"}

  const KnownExts: set<string> := VideoExts + AudioExts + ImageExts + ArchiveExts + DiskImageExts
    + ApplicationExts + TextExts + DocumentExts + BackupExts

  /**
   * `categorize_extension`, a `match` on the extension; the lists are
   * disjoint, so testing them in turn gives the same category.
   */
  function Category(ext: string): string
  {
    if ext in VideoExts then "Video"
    else if ext in AudioExts then "Audio"
    else if ext in ImageExts then "Image"
    else if ext in ArchiveExts then "Archive"
    else if ext in DiskImageExts then "Disk Image"
    else if ext in ApplicationExts then "Application"
    else if ext in TextExts then "Log/Text"
    else if ext in DocumentExts then "Document"
    else if ext in BackupExts then "Backup/Temp"
    else "Other"
  }

  /** An extension on none of the lists is "Other". */
  lemma UnlistedOther(ext: string)
    requires ext !in KnownExts
    ensures Category(ext) == "Other"
  {
  }

  /** A listed extension is never "Other"; each list's extensions get that list's category. */
  lemma ListedCategorised(ext: string)
    requires ext in KnownExts
    ensures Category(ext) != "Other"
  {
    if ext in VideoExts { VideoCategory(ext); }
    else if ext in AudioExts { AudioCategory(ext); }
    else if ext in ImageExts { ImageCategory(ext); }
    else if ext in ArchiveExts { ArchiveCategory(ext); }
    else if ext in DiskImageExts { DiskImageCategory(ext); }
    else if ext in ApplicationExts { ApplicationCategory(ext); }
    else if ext in TextExts { TextCategory(ext); }
    else if ext in DocumentExts { DocumentCategory(ext); }
    else { BackupCategory(ext); }
  }

  lemma VideoCategory(ext: string)
    requires ext in VideoExts
    ensures Category(ext) == "Video"
  {
  }

  lemma AudioCategory(ext: string)
    requires ext in AudioExts
    ensures Category(ext) == "Audio"
  {
  }

  lemma ImageCategory(ext: string)
    requires ext in ImageExts
    ensures Category(ext) == "Image"
  {
  }

  lemma ArchiveCategory(ext: string)
    requires ext in ArchiveExts
    ensures Category(ext) == "Archive"
  {
  }

  lemma DiskImageCategory(ext: string)
    requires ext in DiskImageExts
    ensures Category(ext) == "Disk Image"
  {
  }

  lemma ApplicationCategory(ext: string)
    requires ext in ApplicationExts
    ensures Category(ext) == "Application"
  {
  }

  lemma TextCategory(ext: string)
    requires ext in TextExts
    ensures Category(ext) == "Log/Text"
  {
  }

  lemma DocumentCategory(ext: string)
    requires ext in DocumentExts
    ensures Category(ext) == "Document"
  {
  }

  lemma BackupCategory(ext: string)
    requires ext in BackupExts
    ensures Category(ext) == "Backup/Temp"
  {
  }
}
