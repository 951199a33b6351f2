/** Classification of the host operating system. */
module Platform {

  datatype OperatingSystem = Mac | Windows | Linux | Other

  /**
    Classifies an operating-system identifier (Rust's `env::consts::OS`,
    passed in here). Only the three exact identifiers are recognised; any
    other string, including a different spelling of one of them, is `Other`.
  */
  function DetectOperatingSystem(osId: string): (r: OperatingSystem)
    ensures r == Mac <==> osId == "macos"
    ensures r == Windows <==> osId == "windows"
    ensures r == Linux <==> osId == "linux"
    ensures r == Other <==> osId != "macos" && osId != "windows" && osId != "linux"
  {
    if osId == "macos" then Mac
    else if osId == "windows" then Windows
    else if osId == "linux" then Linux
    else Other
  }
}
