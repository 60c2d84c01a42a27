/** The external collaborators the journal talks to: the AI summarizer, which
    runs an outside command and may fail, and the line the user types when no
    summarizer is configured. Both are opaque to the journal. */
module Ai {
  import opened Results

  /** An AI summarizer: `generate(text, prompt)` is its answer or its error. */
  datatype Summarizer = Summarizer(generate: (string, string) -> Result<string>)

  /** One `bufio.Scanner.Scan` on the manual input: either a line (without its
      line terminator) or no line, with the reader's error when it had one. */
  datatype ManualInput = Line(text: string) | NoLine(readError: Option<string>)
}
