/** fluent-ffmpeg, seen from the pipeline: it is handed a job and eventually
    signals `end` or `error`. Which of the two happens, and what file it
    leaves behind, is decided by an oracle fixed when the encoder is made. */
module Ffmpeg {
  import opened Paths
  import opened Storage

  /** What the pipeline asks of the encoder. A playlist job is a
      single-rendition HLS encode; a rendition job also carries the settings
      set on the command (`size`, `videoBitrate`, `audioBitrate`); both
      carry `-hls_time`. A screenshot job carries those of `screenshots`. */
  datatype Job =
    | Playlist(input: Path, output: Path, segmentSeconds: nat)
    | Rendition(input: Path, output: Path, size: string, videoBitrate: string,
                audioBitrate: string, segmentSeconds: nat)
    | Screenshot(input: Path, output: Path, seconds: nat, size: string)

  /** The `end` event with the file written at the job's output, or the
      `error` event with the error's message. */
  datatype Outcome = Finished(content: string) | Failed(message: string)

  class Encoder {
    const decide: Job -> Outcome
    /** Every job started so far, oldest first. */
    var calls: seq<Job>

    constructor (decide: Job -> Outcome)
      ensures this.decide == decide && calls == []
    {
      this.decide := decide;
      calls := [];
    }

    /** Starts `job` and waits for its outcome; on `end` the output file
        exists with the oracle's content. */
    method Run(disk: Disk, job: Job) returns (o: Outcome)
      modifies this, disk
      ensures o == decide(job) && calls == old(calls) + [job]
      ensures disk.files == (if o.Finished? then old(disk.files)[job.output := o.content] else old(disk.files))
      ensures disk.dirs == old(disk.dirs)
    {
      calls := calls + [job];
      o := decide(job);
      if o.Finished? {
        disk.WriteFile(job.output, o.content);
      }
    }
  }
}
