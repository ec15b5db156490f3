/** The outcome of testing one browser image tag, as the sweep records it. */
module Report {

  datatype Status = Pass | Fail | NotReady | Error

  datatype LogCapture = LogCapture(container: string, content: string)

  datatype Result = Result(policy: string, browser: string, tag: string, status: Status,
                           framePath: string, logs: seq<LogCapture>)
}
