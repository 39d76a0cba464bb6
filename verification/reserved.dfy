/** The reserved keys of a log record (logger.go, lines 11-15). The pipeline
    overwrites `caller` and `time` on every emitted line; `stack` is never
    overwritten and only tells the formatter not to quote its value. */
module Reserved {

  const KeyCaller: string := "caller"
  const KeyStack: string := "stack"
  const KeyTime: string := "time"
}
