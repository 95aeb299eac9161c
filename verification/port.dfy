/** Selection and validation of the TCP port from the positional arguments
    that follow the host name (main.go, lines 19 and 65-71). */
module Port {
  import opened Wrappers

  /** Port used when no port argument is given. */
  const DefaultPort: int := 80
  const MinPort: int := 1
  const MaxPort: int := 65535

  /** The reason a port argument is refused; the program then exits with status 255. */
  datatype PortError = NotAPortNumber

  predicate ValidPort(n: int) {
    MinPort <= n <= MaxPort
  }

  /** `extra` holds the positional arguments after the host, each already run
      through the integer conversion (None when the conversion fails). Only a
      single extra argument is read as the port; with none, or with two or
      more, the default port stays in force. */
  function PortFromArgs(extra: seq<Option<int>>): (r: Result<int, PortError>)
    ensures |extra| != 1 ==> r == Ok(DefaultPort)
    ensures |extra| == 1 ==> (r.Ok? <==> extra[0].Some? && ValidPort(extra[0].value))
    ensures |extra| == 1 && r.Ok? ==> r.value == extra[0].value
    ensures r.Ok? ==> ValidPort(r.value)
  {
    if |extra| == 1 then
      match extra[0]
      case None => Err(NotAPortNumber)
      case Some(n) => if n < MinPort || n > MaxPort then Err(NotAPortNumber) else Ok(n)
    else
      Ok(DefaultPort)
  }
}
