/**
 * src/core/download/downloader.rs: the error types and the destination type
 * that the downloader signatures mention. No code shown resolves a destination
 * to a path; the torrent paths take one and ignore it.
 */
module DownloadTypes {

  datatype StringDownloaderError = StringDownloaderError

  datatype FileDownloaderError = FileDownloaderError

  datatype Destination =
    | GivenFolderGivenFileBasename(folder: string, basename: string)
    | GivenFolderGuessFileBasename(folder: string)
    | DefaultFolderGivenFileBasename(basename: string)
    | Default
}
