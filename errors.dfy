/** The errors the program reports, one constructor per place it makes one. */
module Failures {

  datatype Error =
    | CouldNotParseJson         // parsePage: top level is neither an array nor an object
    | NotFound(path: string)    // ioutil.ReadFile: no readable file at path
    | WriteFailed(path: string) // ioutil.WriteFile refused path
    | NoFilename                // saveToContentDir with an empty file name
    | BadUrl(url: string)       // url.Parse refused the endpoint URL
    | Transport(reason: string) // http.Get or reading the body failed
}
