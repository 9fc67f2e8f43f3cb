/** The job record that travels through the print server, and the failures
    the server's code can run into while handling one. */
module Jobs {

  /** A decoded submission, as stored in the spool file named after it.
      The field names are the keys of the submitted JSON document. */
  datatype Job = Job(
    name: string,
    originUser: string,
    originPrinter: string,
    destPrinter: string,
    postscript: string
  )

  /** One entry of the "printers" section of the configuration. */
  datatype Printer = Printer(address: string, port: int)

  /** The exceptions the modelled code raises. */
  datatype Failure =
    | Undecodable                        // base64/JSON decoding of a submission failed
    | NoSpoolFile(jid: string)           // open(jid) on a name that has no spool file
    | UnknownPrinter(destPrinter: string) // config["printers"][destPrinter] has no such key
    | UndefinedName(ident: string)       // a NameError: the code calls a name nobody defines

  datatype Result<+T> = Ok(value: T) | Err(failure: Failure)

  /** A submission as it comes off the socket: a job if its base64 and JSON
      decode, nothing otherwise. */
  datatype Option<+T> = None | Some(value: T)
}
