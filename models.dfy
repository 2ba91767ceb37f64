/**
 * The shared records of the backend's `models` package that the modelled
 * services pass around: a search result and a playback resolution.
 */
module Models {

  /** Which backend serves a search result. */
  datatype ServiceType = Usenet | Debrid

  /** `models.NZBResult`, the fields the modelled code reads. */
  datatype NZBResult = NZBResult(
    title: string,
    link: string,
    downloadURL: string,
    attributes: map<string, string>,
    serviceType: ServiceType,
    sizeBytes: int)

  /** Go's `m[k]` on a string map: the empty string for a missing key. */
  function Attr(m: map<string, string>, k: string): (v: string)
    ensures k in m ==> v == m[k]
    ensures k !in m ==> v == ""
  {
    if k in m then m[k] else ""
  }

  /** `models.PlaybackResolution`. */
  datatype PlaybackResolution = PlaybackResolution(
    queueID: int,
    webdavPath: string,
    healthStatus: string,
    fileSize: int,
    sourceNZBPath: string)
}
