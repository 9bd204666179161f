/**
 `check_database_connection` in database.py: open a scoped connection, run
 `SELECT 1`, release the connection, and turn any exception into `false`.
 */
module Probe {

  /** How one stage of the round trip ends: it returns normally or raises. */
  datatype Attempt = Returns | Raises(error: string)

  /** What the store does when probed, stage by stage. */
  datatype Connection = Connection(connect: Attempt, selectOne: Attempt, release: Attempt)

  /** The `with` block: the body runs once connected, and the connection's exit runs
      after it on every path. An exception from the exit replaces the body's outcome. */
  function ProbeBody(c: Connection): Attempt {
    match c.connect
    case Raises(e) => Raises(e)
    case Returns =>
      var body := c.selectOne;
      if c.release.Raises? then c.release else body
  }

  /** The `try ... except Exception` around the body: never raises, maps failure to `false`. */
  function CheckDatabaseConnection(c: Connection): (ok: bool)
    ensures ok <==> c.connect.Returns? && c.selectOne.Returns? && c.release.Returns?
  {
    match ProbeBody(c)
    case Returns => true
    case Raises(_) => false
  }
}
