/** Detection events as the desktop app reads them. */
module Events {

  datatype DetectionEvent = DetectionEvent(detector: string, player: string, frameIndex: int,
                                           rangeStart: int, rangeEnd: int, severity: real, confidence: real)

  /** The first frame an event covers: an event without a range covers its own frame. */
  function Start(e: DetectionEvent): int {
    if e.rangeStart == 0 && e.rangeEnd == 0 then e.frameIndex else e.rangeStart
  }

  /** The last frame an event covers. */
  function End(e: DetectionEvent): int {
    if e.rangeStart == 0 && e.rangeEnd == 0 then e.frameIndex else e.rangeEnd
  }
}
