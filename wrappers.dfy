/** Option and Result, the model's stand-ins for Go's nil results and (value, error) pairs. */
module Wrappers {

  datatype Option<+T> = None | Some(value: T)

  datatype Result<+T, +E> = Ok(value: T) | Err(error: E)
}

/** Every error value the modelled code can produce, one constructor per `fmt.Errorf` site. */
module Errors {

  datatype Failure =
      // Builder.Build (pkg/encoder/encode-fluent-interface.go)
    | NoInputsSpecified
    | NoOutputPathSpecified
      // Encoder.Start: `arguments[i+1]` with a trailing `-filter_complex` token is a Go panic
    | ArgumentIndexOutOfRange
      // console parser
    | InvalidPair(component: string)
    | InvalidSizeFormat
    | IntOutOfRange(digits: string)
      // setupEnc (pkg/encode-box/encode-box.go)
    | NoSuitableEncoder
    | EncoderCreation(cause: Failure)
    | AudiosOnlyRecipe(message: string)
      // object storage, seen only through its error text
    | Storage(message: string)
    | DownloadFailed(cause: Failure)
      // makeEncodingRequest (cmd/server.go)
    | NoBodyProvided
    | BodyParse(message: string)
    | NoRecordId
    | NoAudioTrack
      // cleanUpFromObjectStore (cmd/server.go): the formatted message
    | DeleteFailed(message: string)
}
