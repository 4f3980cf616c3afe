/** The counters of one listen port (src/stats/port.rs). Each field is an atomic counter. */
module PortStats {
  import opened Counting

  datatype PortSnapshot = PortSnapshot(
    port: nat,
    tcpAccepted: nat, tcpActive: nat, tcpClosed: nat,
    udpActiveFlows: nat,
    tcpInBytes: nat, tcpOutBytes: nat,
    udpInBytes: nat, udpOutBytes: nat,
    udpDropped: nat)

  class Counters {
    const port: nat
    var tcpAccepted: nat
    var tcpActive: nat
    var tcpClosed: nat
    var udpActiveFlows: nat
    var tcpInBytes: nat
    var tcpOutBytes: nat
    var udpInBytes: nat
    var udpOutBytes: nat
    var udpDropped: nat

    function View(): PortSnapshot
      reads this
    {
      PortSnapshot(port, tcpAccepted, tcpActive, tcpClosed, udpActiveFlows,
                   tcpInBytes, tcpOutBytes, udpInBytes, udpOutBytes, udpDropped)
    }

    constructor (port: nat)
      ensures View() == PortSnapshot(port, 0, 0, 0, 0, 0, 0, 0, 0, 0)
    {
      this.port := port;
      tcpAccepted, tcpActive, tcpClosed, udpActiveFlows := 0, 0, 0, 0;
      tcpInBytes, tcpOutBytes, udpInBytes, udpOutBytes, udpDropped := 0, 0, 0, 0, 0;
    }

    method RecordTcpAccept()
      modifies this`tcpAccepted, this`tcpActive
      ensures View() == old(View()).(tcpAccepted := old(tcpAccepted) + 1, tcpActive := old(tcpActive) + 1)
    {
      tcpAccepted := tcpAccepted + 1;
      tcpActive := tcpActive + 1;
    }

    method RecordTcpClose()
      modifies this`tcpActive, this`tcpClosed
      ensures View() == old(View()).(
                tcpActive := SaturatingSub(old(tcpActive), 1),
                tcpClosed := old(tcpClosed) + 1)
    {
      tcpActive := SaturatingSub(tcpActive, 1);
      tcpClosed := tcpClosed + 1;
    }

    method AddTcpBytes(inBytes: nat, outBytes: nat)
      modifies this`tcpInBytes, this`tcpOutBytes
      ensures View() == old(View()).(
                tcpInBytes := old(tcpInBytes) + inBytes, tcpOutBytes := old(tcpOutBytes) + outBytes)
    {
      tcpInBytes := tcpInBytes + inBytes;
      tcpOutBytes := tcpOutBytes + outBytes;
    }

    method RecordUdpFlowOpen()
      modifies this`udpActiveFlows
      ensures View() == old(View()).(udpActiveFlows := old(udpActiveFlows) + 1)
    {
      udpActiveFlows := udpActiveFlows + 1;
    }

    method RecordUdpFlowClose()
      modifies this`udpActiveFlows
      ensures View() == old(View()).(udpActiveFlows := SaturatingSub(old(udpActiveFlows), 1))
    {
      udpActiveFlows := SaturatingSub(udpActiveFlows, 1);
    }

    method AddUdpIn(bytes: nat)
      modifies this`udpInBytes
      ensures View() == old(View()).(udpInBytes := old(udpInBytes) + bytes)
    {
      udpInBytes := udpInBytes + bytes;
    }

    method AddUdpOut(bytes: nat)
      modifies this`udpOutBytes
      ensures View() == old(View()).(udpOutBytes := old(udpOutBytes) + bytes)
    {
      udpOutBytes := udpOutBytes + bytes;
    }

    method RecordUdpDrop()
      modifies this`udpDropped
      ensures View() == old(View()).(udpDropped := old(udpDropped) + 1)
    {
      udpDropped := udpDropped + 1;
    }

    /** With no concurrent writer the field-by-field read is exact; see StatsReads for the concurrent case. */
    method Snapshot() returns (s: PortSnapshot)
      ensures s == View()
    {
      s := PortSnapshot(port, tcpAccepted, tcpActive, tcpClosed, udpActiveFlows,
                        tcpInBytes, tcpOutBytes, udpInBytes, udpOutBytes, udpDropped);
    }
  }
}
