/** The connection-status widget (src/components/NetworkStatus.tsx): two state fields updated
    by browser events, and the label the widget shows for them. */
module NetworkStatus {
  import opened Wrappers

  /** The snapshot of `navigator.connection` the widget keeps. Every property may be absent;
      `effectiveType` is whatever string the browser reports. */
  datatype Connection = Connection(
    effectiveType: Option<string>,
    rtt: Option<real>,
    downlink: Option<real>,
    saveData: Option<bool>)

  /** What the widget shows. */
  datatype Label = Offline | Unknown | Fast | Moderate | Slow

  /** The shown text of each label. */
  function Text(l: Label): string {
    match l
    case Offline => "Offline"
    case Unknown => "Connection: Unknown"
    case Fast => "Connection: Fast"
    case Moderate => "Connection: Moderate"
    case Slow => "Connection: Slow"
  }

  /** The effective types the status switch names. */
  predicate IsKnownType(effectiveType: Option<string>) {
    effectiveType in {Some("4g"), Some("3g"), Some("2g"), Some("slow-2g")}
  }

  /** `getStatus`: 4g is fast, 3g moderate, 2g and slow-2g slow, anything else (also an
      absent type) unknown. */
  function GetStatus(effectiveType: Option<string>): (l: Label)
    ensures l != Offline
    ensures l == Unknown <==> !IsKnownType(effectiveType)
    ensures l == Fast <==> effectiveType == Some("4g")
    ensures l == Moderate <==> effectiveType == Some("3g")
    ensures l == Slow <==> effectiveType == Some("2g") || effectiveType == Some("slow-2g")
  {
    match effectiveType
    case Some("4g") => Fast
    case Some("3g") => Moderate
    case Some("2g") => Slow
    case Some("slow-2g") => Slow
    case _ => Unknown
  }

  /** The render precedence: offline wins over everything, then a missing record reads as
      unknown, then the effective type decides. */
  function Render(isOnline: bool, connection: Option<Connection>): (l: Label)
    ensures l == Offline <==> !isOnline
    ensures l == Unknown <==> isOnline && (connection.None? || !IsKnownType(connection.value.effectiveType))
    ensures l == Fast <==> isOnline && connection.Some? && connection.value.effectiveType == Some("4g")
    ensures l == Moderate <==> isOnline && connection.Some? && connection.value.effectiveType == Some("3g")
    ensures l == Slow <==> isOnline && connection.Some? &&
                           connection.value.effectiveType in {Some("2g"), Some("slow-2g")}
  {
    if !isOnline then Offline
    else if connection.None? then Unknown
    else GetStatus(connection.value.effectiveType)
  }

  /** Different labels show different texts, so the shown text determines the label; every
      state's text is one of the five. */
  lemma RenderTotal(isOnline: bool, connection: Option<Connection>)
    ensures Text(Render(isOnline, connection)) in
              {"Offline", "Connection: Unknown", "Connection: Fast", "Connection: Moderate", "Connection: Slow"}
    ensures forall a: Label, b: Label :: Text(a) == Text(b) ==> a == b
  {
  }

  /** While offline the stored record does not matter. */
  lemma OfflineIgnoresRecord(c1: Option<Connection>, c2: Option<Connection>)
    ensures Render(false, c1) == Render(false, c2) == Offline
  {
  }

  /** A missing record and a record with an unrecognised or absent effective type look the same. */
  lemma NoRecordLooksUnknown(c: Connection)
    requires !IsKnownType(c.effectiveType)
    ensures Render(true, None) == Render(true, Some(c)) == Unknown
  {
  }

  /** The widget's state. */
  class StatusWidget {
    var connection: Option<Connection>
    var isOnline: bool

    /** Initial state: online, no record. */
    constructor ()
      ensures isOnline && connection == None
    {
      connection := None;
      isOnline := true;
    }

    /** The label the widget currently shows. */
    function Shown(): Label
      reads this
    {
      Render(isOnline, connection)
    }

    /** `updateOnlineStatus` (the `online` and `offline` events): copy `navigator.onLine`. */
    method UpdateOnlineStatus(navigatorOnLine: bool)
      modifies this
      ensures isOnline == navigatorOnLine && connection == old(connection)
      ensures Shown() == Offline <==> !navigatorOnLine
    {
      isOnline := navigatorOnLine;
    }

    /** `updateConnectionDetails` (the connection's `change` event): when `navigator.connection`
        exists, store a copy of its four properties; otherwise keep the old record. A record
        once stored is never dropped. */
    method UpdateConnectionDetails(navigatorConnection: Option<Connection>)
      modifies this
      ensures navigatorConnection.Some? ==> connection == Some(navigatorConnection.value)
      ensures navigatorConnection.None? ==> connection == old(connection)
      ensures old(connection).Some? ==> connection.Some?
      ensures isOnline == old(isOnline)
    {
      if navigatorConnection.Some? {
        var conn := navigatorConnection.value;
        connection := Some(Connection(conn.effectiveType, conn.rtt, conn.downlink, conn.saveData));
      }
    }

    /** The effect's first run: both handlers once, in source order. */
    method Mount(navigatorOnLine: bool, navigatorConnection: Option<Connection>)
      modifies this
      ensures isOnline == navigatorOnLine
      ensures connection == if navigatorConnection.Some? then navigatorConnection else old(connection)
    {
      UpdateOnlineStatus(navigatorOnLine);
      UpdateConnectionDetails(navigatorConnection);
    }
  }
}
