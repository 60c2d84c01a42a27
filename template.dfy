/** The template engine of pkg/template, which the journal only calls: a daily
    file name is rendered from a template and a date, a log entry line from a
    template, a time and the entry text. Rendering may fail with an error. */
module Template {
  import opened Results

  /** `template.Render` for the two uses the journal makes of it: `fileName(template, day)`
      and `logEntry(template, instant, entry)`. */
  datatype Renderer = Renderer(
    fileName: (string, int) -> Result<string>,
    logEntry: (string, int, string) -> Result<string>)
}
