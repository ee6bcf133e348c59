# Verified models of BISDN Linux components

Six parts of the distribution carry global properties that no single function shows. Each is modelled here
in Dafny in the form its source has: the methods of the classes below change state step by step and are proved
against specification functions, and the lemmas about those functions state what the source is for. `dafny verify
dfyconfig.toml` checks everything.

| part | files | main results |
|---|---|---|
| MPLS pseudowire application (`ofdpa_vpws.py`) | `Bits`, `OpenFlow`, `Vpws*` | `WireIff`, `ConnectInstalls`, `ReconnectForwardsNothing` |
| Paged EEPROM access (csp7551 sfp driver) | `Sff*` | `ReadWrite`, `LandsIff`, `ModesAgree`, `WriteAndReadBack` |
| FPGA SMBus master (`fpga_driver.c`) | `Smbus*` | `SmbusWrite`, `SmbusRead`, `DriverSerializable` |
| Wired 802.1X and MAB (hostapd patches) | `Wired*` | `MultiAdmission`, `SingleAdmission`, `FallbackPasses`, `AuthorizedSurvives` |
| Upgrade backup and restore (`backup.sh`) | `Backup*` | `BackedUp`, `UserDropsHonoured`, `ConservedIff`, `UpgradeKeeps` |
| Per-VLAN state cache (libnl patch) | `BridgeVlan` | `Parse` |

`Common` holds what several parts share. The second and third part also meet: `SffOverSmbus` runs the EEPROM driver
over the SMBus master.

## Assumptions about the environment

Pseudowires. `OpenFlow.dfy` is the switch: OF-DPA keeps a copy of every entry of table 24 in table 25; tables 29
and 60 let frames fall through to the action set; the pipeline starts at table 10; a frame that several entries of
equal priority match, or none, is not forwarded; a frame is not sent back out of its ingress port. Buckets run in
action-set order (section 5.10 of the OpenFlow Switch Specification 1.3.1; the OF-DPA pushes go L2 header, control
word, label), and label stack entries follow section 2.1 of RFC 3032. A switch rejects a group that exists or that
refers to one that does not. Configurations have ports below 256, VLANs 1 to 4094, an MPLS port below 65536 and
outer labels below 2^20.

EEPROM. A `Transceiver` sits on a channel of the FPGA or on some other adapter. It may fail any transaction, after any
prefix of a write unless it is `atomic`, for as long as it likes; its image holds all 256 pages of the memory map in section 7.6 of SFF-8436, of which the driver's file
shows the first 640 bytes. Time is a finite number of attempts left.

SMBus. A `PciDevice` runs its channels' bus and slave (START and STOP as in section 3.1 of UM10204). The hardware
chooses how long each command takes and whether the slave takes each byte. `honest` means that status and receive
registers tell the truth, `obliging` that slaves also take every byte, commands end in time and no signal
interrupts; what is stated without these holds for any device. Lengths are at most 128, and channel 34,
which passes the range check but does not exist, is not asked for.

Wired authentication. The kernel acknowledges every request, learns unlocked entries on unlocked ports and locked
ones on MAB ports, drops locked entries when the MAB flag is turned off, and tells of removed entries in a batch, in
no particular order. Turning the flag off, learning, ageing and delivery interleave with the requests of hostapd in
every way. `ieee802_1x_new_station` runs once per station record, freeing a station makes no request to the driver,
and the EAPOL state machine authorizes only stations that have sent EAPOL. Notices of other interfaces never reach
the handlers.

Backup. File systems are trees without symbolic links above the paths concerned; names hold no white space; list
lines are normalised paths and do not name the root; FRR's frr.conf, if backed up, is a regular file. Where source, backup and target hold the same path they agree
whether it is a directory, a file or a link, and no directory stands where a file is renamed to.

VLAN cache. An object handed to the cache replaces, or for deletions removes, the one with the same identity
attributes. Every entry carries its info attribute.

## Where code and documentation differ

- `user-backup.txt` promises that paths to drop always win; `create_backup` reads the user's drop lines only if the
  *system* list exists (`backup.sh` line 212 tests the wrong file). `UserDropsHonoured` gives the exact condition. This
  is a defect of the function on its own: its one caller unpacks a system list first where the old system has none
  (`install.sh` lines 68 to 71), and then all drop lines count (`InstallerHonours`).
- In the legacy FRR branch the second move (`backup.sh` line 298) goes to the name that the first one just used, and
  the suffix is whatever an earlier file left, or empty. `ConservedIff` gives the exact condition.
- A write through the EEPROM file that covers byte 127 with a page number and goes on writes the following bytes to
  that page, not to the range of the file it names. `LandsIff` gives the exact condition.
- `GroupTable_MPLS_Interface` looks its memo up under VLAN 0 and stores under 4095, so each pseudowire gets its own
  group. Its ids are unique, which is all that is claimed.
- The application's memory survives the purge of a reconnecting switch: `ReconnectForwardsNothing`.

## Model

| member | source | states |
|---|---|---|
| `VpwsWire.WireIff` | recipes-devtools/python/python3-ryu/0001-Add-ofdpa_vpws.py-sample-code-for-MPLS-pseudowires.patch:1264-1321 | for every valid configuration: two mirrored switches, whatever they held before, carry every tagged frame of every configured (port, VLAN) to the same port of the other switch unchanged **if and only if** no pair is configured, or there are at most 65536 pairs and the MPLS port is not one of the plain ports |
| `VpwsWire.WireBothWays` | recipes-devtools/python/python3-ryu/0001-Add-ofdpa_vpws.py-sample-code-for-MPLS-pseudowires.patch:1264-1321 | under that condition the wire works in both directions; mirroring twice is the identity |
| `VpwsWire.CarriesToOwner` | recipes-devtools/python/python3-ryu/0001-Add-ofdpa_vpws.py-sample-code-for-MPLS-pseudowires.patch:1264-1321 | where a frame comes out in general, wrapped tunnel ids included: on the port of the pair that owns its tunnel id, or nowhere if the MPLS port is its ingress or egress |
| `VpwsWire.TooManyMisdeliver` | recipes-devtools/python/python3-ryu/0001-Add-ofdpa_vpws.py-sample-code-for-MPLS-pseudowires.patch:244-257 | with more than 65536 pairs some frame does not come out as promised |
| `VpwsWire.MplsPortLoses` | recipes-devtools/python/python3-ryu/0001-Add-ofdpa_vpws.py-sample-code-for-MPLS-pseudowires.patch:1207-1217 | with the MPLS port among the plain ports some frame does not come out as promised |
| `VpwsWire.Initiates` | recipes-devtools/python/python3-ryu/0001-Add-ofdpa_vpws.py-sample-code-for-MPLS-pseudowires.patch:1264-1290 | a frame of a configured pair runs from table 10 through table 13 and the whole group chain to one emission: on the MPLS port, under the outer label over the inner label `vlan<<8\|port` with bottom of stack, both MAC addresses set |
| `VpwsWire.InitiationHits` | recipes-devtools/python/python3-ryu/0001-Add-ofdpa_vpws.py-sample-code-for-MPLS-pseudowires.patch:777-831 | such a frame matches exactly one entry of table 10 |
| `VpwsWire.L2PortHits` | recipes-devtools/python/python3-ryu/0001-Add-ofdpa_vpws.py-sample-code-for-MPLS-pseudowires.patch:842-879 | and exactly one of table 13, whose group belongs to the owner of its tunnel id |
| `VpwsWire.Terminates` | recipes-devtools/python/python3-ryu/0001-Add-ofdpa_vpws.py-sample-code-for-MPLS-pseudowires.patch:1291-1321 | a labelled frame loses every header that the other switch added and leaves on the port that its inner label names, unchanged |
| `VpwsForward.InitiationChain` | recipes-devtools/python/python3-ryu/0001-Add-ofdpa_vpws.py-sample-code-for-MPLS-pseudowires.patch:455-664 | the four-group chain, in action-set order, builds the labelled frame |
| `VpwsForward.OrderVpn` | recipes-devtools/python/python3-ryu/0001-Add-ofdpa_vpws.py-sample-code-for-MPLS-pseudowires.patch:528-596 | the VPN label bucket, which lists the control word last of its pushes, runs as L2 header, control word, label |
| `VpwsInstall.ConnectInstalls` | recipes-devtools/python/python3-ryu/0001-Add-ofdpa_vpws.py-sample-code-for-MPLS-pseudowires.patch:1176-1224 | a connecting switch, whatever it held, accepts every message (no group id added twice, every referenced group added earlier) and then its tables hold the configured pseudowires, and tables 10, 13, 20 and 24 nothing else |
| `VpwsInstall.AllPairs` | recipes-devtools/python/python3-ryu/0001-Add-ofdpa_vpws.py-sample-code-for-MPLS-pseudowires.patch:1207-1217 | the table invariant is kept by every pseudowire of the loops |
| `VpwsInstall.OnePair` | recipes-devtools/python/python3-ryu/0001-Add-ofdpa_vpws.py-sample-code-for-MPLS-pseudowires.patch:1264-1321 | one more pseudowire keeps the invariant on application memory, message log and switch tables |
| `VpwsInstall.OwnerIsLast` | recipes-devtools/python/python3-ryu/0001-Add-ofdpa_vpws.py-sample-code-for-MPLS-pseudowires.patch:244-257 | the entry of table 13 for a tunnel id is that of the last pair that got it |
| `VpwsInstall.GidsApart` | recipes-devtools/python/python3-ryu/0001-Add-ofdpa_vpws.py-sample-code-for-MPLS-pseudowires.patch:360-664 | ids of groups of different kinds never collide |
| `VpwsIds.TunnelIdsDistinctIff` | recipes-devtools/python/python3-ryu/0001-Add-ofdpa_vpws.py-sample-code-for-MPLS-pseudowires.patch:244-257 | the first n tunnel ids are distinct if and only if n <= 65536 |
| `VpwsIds.TunnelIdStable` | recipes-devtools/python/python3-ryu/0001-Add-ofdpa_vpws.py-sample-code-for-MPLS-pseudowires.patch:244-257 | a key keeps the tunnel id it was first given, whatever pseudowires are created in between |
| `VpwsIds.PairsAreConfigured` | recipes-devtools/python/python3-ryu/0001-Add-ofdpa_vpws.py-sample-code-for-MPLS-pseudowires.patch:1207-1217 | the nested loops visit exactly the configured pairs, each once |
| `VpwsIds.GidValues` | recipes-devtools/python/python3-ryu/0001-Add-ofdpa_vpws.py-sample-code-for-MPLS-pseudowires.patch:377-471 | the shifts and ors that make up group ids, as arithmetic |
| `VpwsIds.LabelValue` | recipes-devtools/python/python3-ryu/0001-Add-ofdpa_vpws.py-sample-code-for-MPLS-pseudowires.patch:1276 | the inner label determines port and VLAN |
| `VpwsReconnect.ReconnectForwardsNothing` | recipes-devtools/python/python3-ryu/0001-Add-ofdpa_vpws.py-sample-code-for-MPLS-pseudowires.patch:1176-1224 | the application remembers entries over the purge: after a second connect, of any configuration and switch, no frame is forwarded at all |
| `VpwsReconnect.KnownPairs` | recipes-devtools/python/python3-ryu/0001-Add-ofdpa_vpws.py-sample-code-for-MPLS-pseudowires.patch:347-356 | pairs already remembered install no flow entry |
| `VpwsMessages.FirstInitiation` | recipes-devtools/python/python3-ryu/0001-Add-ofdpa_vpws.py-sample-code-for-MPLS-pseudowires.patch:361-879 | the six initiation messages of the first pseudowire word for word: four groups and the entries of tables 10 and 13 |
| `VpwsMessages.FirstTermination` | recipes-devtools/python/python3-ryu/0001-Add-ofdpa_vpws.py-sample-code-for-MPLS-pseudowires.patch:408-1053 | the six termination messages of the first pseudowire word for word |
| `VpwsMessages.BothHalves` | recipes-devtools/python/python3-ryu/0001-Add-ofdpa_vpws.py-sample-code-for-MPLS-pseudowires.patch:1276-1321 | both halves use the tunnel id of the pair and the L2 port 0xBEEF; the first tunnel id is 0x10000 |
| `VpwsMessages.ConnectFrame` | recipes-devtools/python/python3-ryu/0001-Add-ofdpa_vpws.py-sample-code-for-MPLS-pseudowires.patch:1199-1226 | a connect begins by emptying the switch and ends with the two copies to the controller |
| `VpwsMessages.TerminationMetadata` | recipes-devtools/python/python3-ryu/0001-Add-ofdpa_vpws.py-sample-code-for-MPLS-pseudowires.patch:936-1005 | on termination the metadata of the j-th pair is its tunnel, the network side of its L2 port and the VPWS type |
| `VpwsMessages.OwnVlan` | recipes-devtools/python/python3-ryu/0001-Add-ofdpa_vpws.py-sample-code-for-MPLS-pseudowires.patch:361-766 | what the table objects send for a VLAN of its own |
| `VpwsMessages.NoVlan` | recipes-devtools/python/python3-ryu/0001-Add-ofdpa_vpws.py-sample-code-for-MPLS-pseudowires.patch:777-831 | without a VLAN every frame of the port is selected |
| `VpwsMessages.GroupsOnce` | recipes-devtools/python/python3-ryu/0001-Add-ofdpa_vpws.py-sample-code-for-MPLS-pseudowires.patch:361-664 | a group that was added is returned and not added again |
| `VpwsMessages.InterfaceOnceIff` | recipes-devtools/python/python3-ryu/0001-Add-ofdpa_vpws.py-sample-code-for-MPLS-pseudowires.patch:455-515 | for MPLS interface groups so it is **if and only if** they have a VLAN of their own, or were known by VLAN 0 |
| `VpwsMessages.FlowsOnce` | recipes-devtools/python/python3-ryu/0001-Add-ofdpa_vpws.py-sample-code-for-MPLS-pseudowires.patch:777-1005 | a flow table object answers exactly the calls that it remembers with silence |
| `VpwsMessages.MoreFlowsOnce` | recipes-devtools/python/python3-ryu/0001-Add-ofdpa_vpws.py-sample-code-for-MPLS-pseudowires.patch:675-1053 | the same for the tables keyed by label, VLAN with port, and VLAN with address |
| `VpwsMessages.DigitsValue` | recipes-devtools/python/python3-ryu/0001-Add-ofdpa_vpws.py-sample-code-for-MPLS-pseudowires.patch:890-925 | the VLAN in the key of a termination entry is written in decimal |
| `Vpws.App.SwitchConnect` | recipes-devtools/python/python3-ryu/0001-Add-ofdpa_vpws.py-sample-code-for-MPLS-pseudowires.patch:1176-1226 | the imperative loops send exactly the message log of the specification and leave its memory |
| `Vpws.App.CreateVpws` | recipes-devtools/python/python3-ryu/0001-Add-ofdpa_vpws.py-sample-code-for-MPLS-pseudowires.patch:1264-1321 | memory and log after one pseudowire |
| `Vpws.TunnelIds.Create` | recipes-devtools/python/python3-ryu/0001-Add-ofdpa_vpws.py-sample-code-for-MPLS-pseudowires.patch:244-257 | id returned and dictionary after it |
| `Vpws.GroupTableL2Interface.AddEntry` | recipes-devtools/python/python3-ryu/0001-Add-ofdpa_vpws.py-sample-code-for-MPLS-pseudowires.patch:361-405 | group id, memory and message |
| `Vpws.GroupTableL2Interface.AddUnfilteredEntry` | recipes-devtools/python/python3-ryu/0001-Add-ofdpa_vpws.py-sample-code-for-MPLS-pseudowires.patch:408-442 | group id, memory and message |
| `Vpws.GroupTableMplsInterface.AddEntry` | recipes-devtools/python/python3-ryu/0001-Add-ofdpa_vpws.py-sample-code-for-MPLS-pseudowires.patch:455-515 | group id, memory and message; looks under VLAN 0 and stores under 4095, so it never reuses a group |
| `Vpws.GroupTableVpnLabel.AddEntry` | recipes-devtools/python/python3-ryu/0001-Add-ofdpa_vpws.py-sample-code-for-MPLS-pseudowires.patch:528-596 | group id, memory and message |
| `Vpws.GroupTableTunnelLabel.AddEntry` | recipes-devtools/python/python3-ryu/0001-Add-ofdpa_vpws.py-sample-code-for-MPLS-pseudowires.patch:609-664 | group id, memory and message |
| `Vpws.FlowTableVlan.AddEntry` | recipes-devtools/python/python3-ryu/0001-Add-ofdpa_vpws.py-sample-code-for-MPLS-pseudowires.patch:675-766 | memory and the two messages |
| `Vpws.FlowTableVlanMpls.AddEntry` | recipes-devtools/python/python3-ryu/0001-Add-ofdpa_vpws.py-sample-code-for-MPLS-pseudowires.patch:777-831 | memory and message |
| `Vpws.FlowTableMplsL2Port.AddEntry` | recipes-devtools/python/python3-ryu/0001-Add-ofdpa_vpws.py-sample-code-for-MPLS-pseudowires.patch:842-879 | memory and message |
| `Vpws.FlowTableTermination.AddEntry` | recipes-devtools/python/python3-ryu/0001-Add-ofdpa_vpws.py-sample-code-for-MPLS-pseudowires.patch:890-925 | memory and message |
| `Vpws.FlowTablePwTerminate.AddEntry` | recipes-devtools/python/python3-ryu/0001-Add-ofdpa_vpws.py-sample-code-for-MPLS-pseudowires.patch:936-1005 | memory and message |
| `Vpws.FlowTableOuterLabel.AddEntry` | recipes-devtools/python/python3-ryu/0001-Add-ofdpa_vpws.py-sample-code-for-MPLS-pseudowires.patch:1016-1053 | memory and message |
| `SffDriver.Port.ReadWrite` | recipes-kernel/accton-csp7551-mods/files/x86-64-accton-csp7551-sfp.c:1533-1632 | a whole transfer over any adapter: a complete read returns its range of the flat image and changes neither the module nor the buffer elsewhere; a complete write has left exactly the image that `Landed` gives, clean or not; a clean write that falls short stored a prefix; and unless a write to the page register itself failed, the register is 0 again after reads and clean writes |
| `SffImage.LandsIff` | recipes-kernel/accton-csp7551-mods/files/x86-64-accton-csp7551-sfp.c:1392-1457 | a complete write changes exactly its range of the image, for every module that shows page 0, **if and only if** it leaves the page register alone (byte 127 not covered, or written with 0) or ends within the lower half |
| `SffImage.PageAfter` | recipes-kernel/accton-csp7551-mods/files/x86-64-accton-csp7551-sfp.c:1392-1457 | the page register after a complete write: the byte written at 127 if the write covers it and ends by offset 256, and 0 otherwise |
| `SffImage.TwoBytes` | recipes-kernel/accton-csp7551-mods/files/x86-64-accton-csp7551-sfp.c:1392-1457 | an instance: of two bytes written at offset 127 the second lands at the start of the page that the first selects |
| `SffImage.CleanLands` | recipes-kernel/accton-csp7551-mods/files/x86-64-accton-csp7551-sfp.c:1392-1457 | a clean write is one splice of the image |
| `SffImage.ChunkLands` | recipes-kernel/accton-csp7551-mods/files/x86-64-accton-csp7551-sfp.c:1392-1457 | where one chunk lands, whatever page is shown when it starts |
| `SffImage.LandsNext` | recipes-kernel/accton-csp7551-mods/files/x86-64-accton-csp7551-sfp.c:1569-1600 | chunk after chunk lands where the whole write does |
| `SffOverSmbus.WriteAndReadBack` | recipes-kernel/accton-csp7551-mods/files/x86-64-accton-csp7551-sfp.c:1533-1632 | the driver stack as it is built: in word mode over the SMBus master of the FPGA, with an obliging slave that shows page 0, the bytes of a clean write through the file come back when read through it, the image of the slave on the bus changes in their range only, and other channels and all semaphores are as before |
| `SffTransceiver.Transceiver.Fetch` | recipes-kernel/accton-csp7551-mods/files/fpga_driver.c:689-757 | a transaction over the FPGA does to a paged slave, byte by byte, what a transaction promises |
| `SffTransceiver.Transceiver.Store` | recipes-kernel/accton-csp7551-mods/files/fpga_driver.c:689-757 | the same for writes, with a stored prefix on failure |
| `SffDriver.Port.Probe` | recipes-kernel/accton-csp7551-mods/files/x86-64-accton-csp7551-sfp.c:1824-1863 | on an adapter of the FPGA the driver chooses word transactions and writes single bytes |
| `SffDriver.Port.Transfer` | recipes-kernel/accton-csp7551-mods/files/x86-64-accton-csp7551-sfp.c:1569-1623 | the chunk loop: a complete transfer, or what is known where it fell short |
| `SffDriver.Port.UpdateClient` | recipes-kernel/accton-csp7551-mods/files/x86-64-accton-csp7551-sfp.c:1392-1457 | one chunk: the effect of page select, transactions and page restore, complete or not; the page register is set back on every exit, a failed transaction included |
| `SffDriver.Port.WriteChunk` | recipes-kernel/accton-csp7551-mods/files/x86-64-accton-csp7551-sfp.c:1420-1439 | all data, or a prefix at least as long as the count returned |
| `SffDriver.Port.ReadChunk` | recipes-kernel/accton-csp7551-mods/files/x86-64-accton-csp7551-sfp.c:1420-1439 | the bytes counted are those of the module, and the buffer changes nowhere outside the chunk |
| `SffDriver.Port.EepromWrite` | recipes-kernel/accton-csp7551-mods/files/x86-64-accton-csp7551-sfp.c:1288-1389 | one transaction with retries, in four bus modes: the bytes counted were stored, or a prefix on failure; it is tried again whatever the failure, until -ETIMEDOUT |
| `SffDriver.Port.EepromRead` | recipes-kernel/accton-csp7551-mods/files/x86-64-accton-csp7551-sfp.c:1192-1286 | one transaction with retries, in four bus modes: all bytes that the mode can carry and nothing else, even if failed attempts have filled the buffer in part; it ends at the first complete attempt, at once with -ENXIO if there is no module, or with -ETIMEDOUT, and on failure the buffer changes nowhere outside the range asked for |
| `SffDriver.Port.PageLegal` | recipes-kernel/accton-csp7551-mods/files/x86-64-accton-csp7551-sfp.c:1472-1530 | the length granted, and the error of a refusal; the unsigned wrap for unpaged modules is kept |
| `SffDriver.GrantedByBit` | recipes-kernel/accton-csp7551-mods/files/x86-64-accton-csp7551-sfp.c:1505-1524 | the length granted from the bits of byte 2: up to offset 640 with bit 2 clear, up to offset 256 with it set, and everything beyond offset 256 of an unpaged module |
| `SffDriver.GrantsIff` | recipes-kernel/accton-csp7551-mods/files/x86-64-accton-csp7551-sfp.c:1505-1510 | refused are exactly the accesses that begin at or after 640 and go beyond 256 |
| `SffDriver.AccessLength` | recipes-kernel/accton-csp7551-mods/files/x86-64-accton-csp7551-sfp.c:1505-1524 | a transfer on a reliable module moves just that many bytes |
| `SffDriver.CountsFit` | recipes-kernel/accton-csp7551-mods/files/x86-64-accton-csp7551-sfp.c:1203-1335 | the byte count of a transaction is positive and no more than asked for; that of a write is what the mode can carry of the rest of the page and of `write_max` |
| `SffDriver.ReadsNeeded` | recipes-kernel/accton-csp7551-mods/files/x86-64-accton-csp7551-sfp.c:1203-1217 | how many transactions read a chunk: one with plain I2C, and one per 32, 2 or 1 bytes with blocks, words or bytes |
| `SffDriver.SingleWrites` | recipes-kernel/accton-csp7551-mods/files/x86-64-accton-csp7551-sfp.c:1299-1335 | with `write_max` 1 every write transaction carries one byte, in every mode |
| `SffDriver.ProbeChooses` | recipes-kernel/accton-csp7551-mods/files/x86-64-accton-csp7551-sfp.c:1824-1842 | the mode chosen is the first of plain I2C, block, word and byte that the adapter offers |
| `SffDriver.ChunksTile` | recipes-kernel/accton-csp7551-mods/files/x86-64-accton-csp7551-sfp.c:1569-1600 | the chunks of a transfer partition it in order, each within one page |
| `SffDriver.Finished` | recipes-kernel/accton-csp7551-mods/files/x86-64-accton-csp7551-sfp.c:1603-1623 | a loop that runs to its end has met the contract, for clean writes and others |
| `SffDriver.Advance` | recipes-kernel/accton-csp7551-mods/files/x86-64-accton-csp7551-sfp.c:1603-1618 | one more chunk keeps the transfer invariant |
| `SffDriver.Stopped` | recipes-kernel/accton-csp7551-mods/files/x86-64-accton-csp7551-sfp.c:1613-1618 | a failing chunk leaves a prefix of the whole transfer |
| `SffDriver.ReadBack` | recipes-kernel/accton-csp7551-mods/files/x86-64-accton-csp7551-sfp.c:1533-1632 | reading back a clean write returns the data and changes nothing |
| `SffDriver.ModesAgree` | recipes-kernel/accton-csp7551-mods/files/x86-64-accton-csp7551-sfp.c:1203-1335 | two complete transfers agree in memory and buffer, whatever bus modes and retries they used, and whatever they wrote |
| `SffMemory.TranslateBijective` | recipes-kernel/accton-csp7551-mods/files/x86-64-accton-csp7551-sfp.c:1169-1190 | offset translation is a bijection between the flat image and the bytes of the module |
| `SffMemory.FlatInjective` | recipes-kernel/accton-csp7551-mods/files/x86-64-accton-csp7551-sfp.c:1169-1190 | the flat image determines the memory |
| `SffMemory.ChunkReads` | recipes-kernel/accton-csp7551-mods/files/x86-64-accton-csp7551-sfp.c:1392-1457 | reading a chunk through its selected page reads the flat image |
| `SffMemory.ChunkWrites` | recipes-kernel/accton-csp7551-mods/files/x86-64-accton-csp7551-sfp.c:1392-1457 | selecting, writing and deselecting is one splice of the flat image |
| `SffMemory.PokeTwice` | recipes-kernel/accton-csp7551-mods/files/x86-64-accton-csp7551-sfp.c:1420-1439 | consecutive transactions make one write |
| `SmbusDriver.PciDevice.SmbusWrite` | recipes-kernel/accton-csp7551-mods/files/fpga_driver.c:499-684 | on truthful hardware success means: the bus saw exactly START, address, offset, data, STOP, all acknowledged, the slave stored the data, and the bus is free; -ETIMEDOUT means the last byte was refused and the bus is free after a STOP, and -EBUSY that some command took longer than the driver waits; whatever the device, memory holds a stored prefix, the semaphore was given back once, the last bus event is STOP, the settings are kept or re-initialised, other channels are untouched, and the poll bound (2*max(n,1)+6)*max_retry_time holds; with a willing slave it returns 0 if the address is its own and -ETIMEDOUT otherwise |
| `SmbusDriver.PciDevice.SmbusRead` | recipes-kernel/accton-csp7551-mods/files/fpga_driver.c:274-496 | the same for reads: the repeated-START trace with only the last byte not acknowledged, the slave's bytes returned, its memory untouched |
| `SmbusDriver.PciDevice.WriteBytes` | recipes-kernel/accton-csp7551-mods/files/fpga_driver.c:546-641 | steps 1 to 11 of a write, with their share of the poll bound |
| `SmbusDriver.PciDevice.SendAll` | recipes-kernel/accton-csp7551-mods/files/fpga_driver.c:596-626 | the data loop stores a prefix of the data and nothing else, even if acknowledges lie |
| `SmbusDriver.PciDevice.ReadBytes` | recipes-kernel/accton-csp7551-mods/files/fpga_driver.c:322-452 | steps 1 to 13 of a read; one byte is read even if none is asked for |
| `SmbusDriver.PciDevice.ReceiveAll` | recipes-kernel/accton-csp7551-mods/files/fpga_driver.c:397-426 | the loop reads and acknowledges all bytes but the last |
| `SmbusDriver.PciDevice.ReceiveLast` | recipes-kernel/accton-csp7551-mods/files/fpga_driver.c:428-447 | the last byte is not acknowledged and STOP follows |
| `SmbusDriver.PciDevice.AddressMemory` | recipes-kernel/accton-csp7551-mods/files/fpga_driver.c:322-368 | START, slave address, offset |
| `SmbusDriver.PciDevice.AddressForReading` | recipes-kernel/accton-csp7551-mods/files/fpga_driver.c:322-394 | then a repeated START for reading |
| `SmbusDriver.PciDevice.IssueStop` | recipes-kernel/accton-csp7551-mods/files/fpga_driver.c:628-637 | emits STOP; it fails only if that took too long |
| `SmbusDriver.PciDevice.Reinitialise` | recipes-kernel/accton-csp7551-mods/files/fpga_driver.c:457-465 | the four register writes that disable, set up and enable the channel |
| `SmbusDriver.PciDevice.DeviceBusy` | recipes-kernel/accton-csp7551-mods/files/fpga_driver.c:454-478 | re-initialises the channel and emits STOP, by exactly five register writes |
| `SmbusDriver.PciDevice.NoAckResponse` | recipes-kernel/accton-csp7551-mods/files/fpga_driver.c:480-495 | emits STOP, and falls into the other exit exactly if the bus stays busy |
| `SmbusDriver.PciDevice.Leave` | recipes-kernel/accton-csp7551-mods/files/fpga_driver.c:449-495 | every exit releases the semaphore exactly once |
| `SmbusDriver.PciDevice.CheckBusy` | recipes-kernel/accton-csp7551-mods/files/fpga_driver.c:212-229 | at most max_retry_time polls; on truthful hardware success exactly if the bus is free within them |
| `SmbusDriver.PciDevice.CheckTip` | recipes-kernel/accton-csp7551-mods/files/fpga_driver.c:231-248 | at most max_retry_time polls; on truthful hardware success exactly if the command ends within them |
| `SmbusDriver.PciDevice.CheckAck` | recipes-kernel/accton-csp7551-mods/files/fpga_driver.c:250-272 | at most max_retry_time polls; on a truthful device it tells whether the byte was acknowledged |
| `SmbusDriver.PciDevice.InitSmbus` | recipes-kernel/accton-csp7551-mods/files/fpga_driver.c:868-902 | all channels get their settings and no bus moves |
| `SmbusLink.LoadsWhatWasStored` | recipes-kernel/accton-csp7551-mods/files/fpga_driver.c:274-684 | in a slave with plain memory, what a complete write stored is what a later read of the range returns, wrap-around included |
| `SmbusLink.StoreAllPaged` | recipes-kernel/accton-csp7551-mods/files/fpga_driver.c:596-626 | in a paged slave, the bytes of a write are one transaction within a half |
| `SmbusLink.StoreAllAt` | recipes-kernel/accton-csp7551-mods/files/fpga_driver.c:596-626 | each byte of a plain slave after a write |
| `SmbusLink.Commands` | recipes-kernel/accton-csp7551-mods/files/fpga_driver.c:157-162 | what the five command words do on the bus |
| `SmbusFpga.Blocks` | recipes-kernel/accton-csp7551-mods/files/fpga_driver.c:299-300 | register blocks at strides of 0x20 are disjoint |
| `SmbusIsolation.DriverSerializable` | recipes-kernel/accton-csp7551-mods/files/fpga_driver.c:293-300 | threads that only call the driver, in any interleaving and on any device: running their transfers one after another, in the order of taking semaphores, gives every thread the same operations and values and every register and bus the same end |
| `SmbusIsolation.Serializable` | recipes-kernel/accton-csp7551-mods/files/fpga_driver.c:293-300 | the same for any log in which a thread works only on the channel whose semaphore it holds |
| `SmbusIsolation.ThreadsLegal` | recipes-kernel/accton-csp7551-mods/files/fpga_driver.c:293-300 | threads that keep the discipline one by one, with semaphores that exclude, keep it together |
| `SmbusIsolation.TransferLegal` | recipes-kernel/accton-csp7551-mods/files/fpga_driver.c:274-684 | the operations of one driver call keep the discipline |
| `SmbusIsolation.SemaphoreCounts` | recipes-kernel/accton-csp7551-mods/files/fpga_driver.c:293-296 | a semaphore is down exactly while one thread holds it |
| `SmbusIsolation.ChannelAlone` | recipes-kernel/accton-csp7551-mods/files/fpga_driver.c:299-300 | a channel depends on the accesses to its own block alone |
| `WiredSafety.MultiAdmission` | recipes-connectivity/hostapd/files/0006-drivers-add-a-linux-wired-driver.patch:720-789 | per-address mode, over all runs: the port is locked from the first request of init until deinit unlocks it; an unlocked entry belongs to an address that some earlier step authorized and no later step de-authorized, with no link-down since, or the request that removes it is under way; whenever hostapd is idle, the addresses that get through are **exactly** those whose entry has not aged either |
| `WiredSafety.SingleAdmission` | recipes-connectivity/hostapd/files/0006-drivers-add-a-linux-wired-driver.patch:542-567 | whole-port mode, over all runs: whenever hostapd is idle, everybody gets through if some authorization has no de-authorization and no link-down after it, and nobody otherwise; after lock and flush no unlocked entry remains |
| `WiredSafety.GrantedIff` | recipes-connectivity/hostapd/files/0006-drivers-add-a-linux-wired-driver.patch:746-789 | the record of grants that the invariants use is what the steps of the run did |
| `WiredSafety.MabMachine` | recipes-connectivity/hostapd/files/0005-use-a-timer-for-mab-instead-of-forcing-drivers-to-se.patch:60-98 | over all runs: a pending timer belongs to a live station that sent no EAPOL, `mab` and `pae_detected` are never both set, and MAB let in only stations that had sent no EAPOL |
| `WiredSafety.StepInv` | recipes-connectivity/hostapd/files/0010-driver_wired_linux-unlock-neigh-before-unlocking-por.patch:29-43 | every step, of hostapd or of the kernel, keeps the whole invariant |
| `WiredSafety.CarryPortOk` | recipes-connectivity/hostapd/files/0006-drivers-add-a-linux-wired-driver.patch:542-567 | so does each request when it is carried out, with frames and ageing in between |
| `WiredSafety.JudgedPortOk` | recipes-connectivity/hostapd/files/0010-driver_wired_linux-unlock-neigh-before-unlocking-por.patch:29-43 | so does each verdict |
| `WiredSafety.JudgedStationsOk` | recipes-connectivity/hostapd/files/0004-import-base-MAB-handling-code-from-Cumulus.patch:152-190 | a verdict keeps the station invariant; a MAB accept finds no EAPOL |
| `WiredProgress.FallbackPasses` | recipes-connectivity/hostapd/files/0005-use-a-timer-for-mab-instead-of-forcing-drivers-to-se.patch:60-86 | over all runs: a silent station whose timer expires, and which the server then accepts, is admitted and gets through as soon as hostapd is idle, until it is de-authorized, the link goes down or its entry ages |
| `WiredProgress.FallbackAdmits` | recipes-connectivity/hostapd/files/0005-use-a-timer-for-mab-instead-of-forcing-drivers-to-se.patch:60-86 | that reply authorizes its record |
| `WiredProgress.SilentFallsBack` | recipes-connectivity/hostapd/files/0005-use-a-timer-for-mab-instead-of-forcing-drivers-to-se.patch:127-130 | a station that is silent from its first sign on can fall back, if MAB is configured |
| `WiredProgress.NewRecord` | recipes-connectivity/hostapd/files/0005-use-a-timer-for-mab-instead-of-forcing-drivers-to-se.patch:26-36 | an unknown station gets a record, and a timer exactly if MAB is configured and it did not send EAPOL |
| `WiredProgress.NoNewRecord` | recipes-connectivity/hostapd/files/0006-drivers-add-a-linux-wired-driver.patch:585-633 | a known station keeps its record, and unlocked entries make none |
| `WiredProgress.VerdictRecorded` | recipes-connectivity/hostapd/files/0001-Split-ap_sta_set_authorized-into-two-steps.patch:101-118 | the record says what the last verdict was |
| `WiredProgress.OtherReplies` | recipes-connectivity/hostapd/files/0004-import-base-MAB-handling-code-from-Cumulus.patch:152-204 | replies about stations that are not in MAB change nothing here |
| `WiredProgress.GoneForgotten` | recipes-connectivity/hostapd/files/0007-driver_linux_wired-handle-neighs-going-away.patch:65-80 | a station that has left is forgotten, and its timer with it |
| `WiredProgress.IdleFlags` | recipes-connectivity/hostapd/files/0006-drivers-add-a-linux-wired-driver.patch:456-510 | whenever hostapd is idle the port is up, and a MAB port exactly if it is locked and kernel MAB is configured |
| `WiredProgress.UnknownReported` | recipes-connectivity/hostapd/files/0006-drivers-add-a-linux-wired-driver.patch:585-633 | in kernel MAB a locked port reports every unknown address |
| `WiredProgress.BroughtUpLocked` | recipes-connectivity/hostapd/files/0009-driver_wired_linux-wait-for-bridge-attachment.patch:38-68 | the port is brought up only when it is locked and nothing opens it |
| `WiredProgress.ShutDown` | recipes-connectivity/hostapd/files/0008-driver_wired_linux-flush-all-entries-on-start-stop.patch:29-34 | shutdown leaves a port that is down and unlocked, with no entry |
| `WiredProgress.WholePortNamesNobody` | recipes-connectivity/hostapd/files/0010-driver_wired_linux-unlock-neigh-before-unlocking-por.patch:29-43 | without kernel MAB, whole-port mode never names an address to the kernel |
| `WiredProgress.Begins` | recipes-connectivity/hostapd/files/0009-driver_wired_linux-wait-for-bridge-attachment.patch:38-68 | initialisation starts with no station and takes the link for down |
| `WiredSurvival.AuthorizedSurvives` | recipes-connectivity/hostapd/files/0010-driver_wired_linux-unlock-neigh-before-unlocking-por.patch:29-43 | a station authorized in kernel MAB stays in the table and authorized through the unlock and the delivery of every notice, until it is de-authorized, the port is locked again or its entry ages |
| `WiredSurvival.UnlockAloneLoses` | recipes-connectivity/hostapd/files/0010-driver_wired_linux-unlock-neigh-before-unlocking-por.patch:8-15 | without the neighbour entry first, the notice of the unlock frees the station while the port stays open |
| `WiredDriver.Authenticator.SetStaAuthorized` | recipes-connectivity/hostapd/files/0010-driver_wired_linux-unlock-neigh-before-unlocking-por.patch:29-43 | requests sent and lock state for every combination of flags; clearing wins |
| `WiredDriver.Authenticator.SetPortLocked` | recipes-connectivity/hostapd/files/0006-drivers-add-a-linux-wired-driver.patch:456-510 | the MAB flag goes with the lock |
| `WiredDriver.Authenticator.RtmNewlink` | recipes-connectivity/hostapd/files/0006-drivers-add-a-linux-wired-driver.patch:542-567 | locks (whole-port mode only) and then flushes when the link goes down |
| `WiredDriver.Authenticator.RtmNewneigh` | recipes-connectivity/hostapd/files/0006-drivers-add-a-linux-wired-driver.patch:585-633 | only locked entries make stations |
| `WiredDriver.Authenticator.RtmDelneigh` | recipes-connectivity/hostapd/files/0007-driver_linux_wired-handle-neighs-going-away.patch:29-80 | frees the station |
| `WiredDriver.Authenticator.Init` | recipes-connectivity/hostapd/files/0009-driver_wired_linux-wait-for-bridge-attachment.patch:38-68 | lock, flush, up, in this order |
| `WiredDriver.Authenticator.Deinit` | recipes-connectivity/hostapd/files/0008-driver_wired_linux-flush-all-entries-on-start-stop.patch:29-34 | down, unlock, flush |
| `WiredDriver.Authenticator.ReceiveFrame` | recipes-connectivity/hostapd/files/0005-use-a-timer-for-mab-instead-of-forcing-drivers-to-se.patch:93-98 | the first EAPOL frame cancels the timer and ends MAB |
| `WiredDriver.Authenticator.HandleEapRxTimeout` | recipes-connectivity/hostapd/files/0005-use-a-timer-for-mab-instead-of-forcing-drivers-to-se.patch:60-86 | the timer is gone and the station is in MAB |
| `WiredDriver.Authenticator.EventNewSta` | recipes-connectivity/hostapd/files/0005-use-a-timer-for-mab-instead-of-forcing-drivers-to-se.patch:123-130 | a new record and its timer |
| `WiredDriver.Authenticator.ReceiveAuth` | recipes-connectivity/hostapd/files/0004-import-base-MAB-handling-code-from-Cumulus.patch:152-204 | replies act only on stations in MAB |
| `WiredDriver.Authenticator.SetStationAuthorized` | recipes-connectivity/hostapd/files/0001-Split-ap_sta_set_authorized-into-two-steps.patch:101-118 | station flag first, then the driver |
| `BackupResult.BackedUp` | scripts/installer/lib/backup.sh:193-214 | apart from directories, the backup holds exactly the entries at or below some path to keep and at or below no path to drop, as they are in the source |
| `BackupResult.BackedUpDirs` | scripts/installer/lib/backup.sh:12-62 | directories come with the attributes of the source unless they were there and are only passed through; everything kept lies in kept directories |
| `BackupLists.LineOfPath` | scripts/installer/lib/backup.sh:101-117 | for every path of proper names: the line that writes it keeps it, and drops it after a minus sign, with or without its first slash |
| `BackupLists.LineOfNothing` | scripts/installer/lib/backup.sh:101-117 | exactly the lines that begin otherwise say nothing |
| `BackupLists.LinesOfUnlines` | scripts/installer/lib/backup.sh:101-117 | lines that end in newlines are read back as they were; what follows the last newline is not read |
| `BackupLists.ListedIsKept` | scripts/installer/lib/backup.sh:193-214 | a file at or below a path written in any list is in the backup as it was, if no minus line is in the system's or the user's list |
| `BackupLists.DroppedIsGone` | scripts/installer/lib/backup.sh:208-214 | a path written after a minus sign, and all below it, is not in the backup |
| `BackupResult.PackageKeepsUntil` | scripts/installer/lib/backup.sh:196-199 | the package lists count up to the first that is no file |
| `BackupResult.UserDropsHonoured` | scripts/installer/lib/backup.sh:208-214 | the user's drop lines are honoured as documented **if and only if** there is a system list, or none of them that exists lies above or below a path to keep that exists, or above something that the backup directory held |
| `BackupResult.InstallerHonours` | scripts/installer/install.sh:68-74 | the installer supplies the system list where it is missing, and then they always are |
| `BackupResult.UserDropIgnored` | scripts/installer/lib/backup.sh:212 | without a system list, anything the user lists to keep and to drop is kept |
| `BackupResult.UserDropIgnoredInstance` | scripts/installer/lib/backup.sh:212 | a concrete file system where this happens |
| `BackupResult.OrderOfLists` | scripts/installer/lib/backup.sh:196-199 | the order of the package lists makes no difference |
| `BackupResult.OrderOfLines` | scripts/installer/lib/backup.sh:101-117 | sources that differ in the order of the lines of their lists give backups that agree outside these lists |
| `BackupCreate.Backup.CreateBackup` | scripts/installer/lib/backup.sh:193-214 | the result as a closed form of source, lists and what was there before |
| `BackupCreate.Backup.ParseFile` | scripts/installer/lib/backup.sh:96-118 | one list, in either mode |
| `BackupCreate.Backup.AddToBackup` | scripts/installer/lib/backup.sh:33-62 | the entry with all below it and the directories above it; links and missing entries are skipped |
| `BackupCreate.Backup.RemoveFromBackup` | scripts/installer/lib/backup.sh:65-93 | the entry and all below it |
| `BackupCreate.Backup.CpPathWithAttr` | scripts/installer/lib/backup.sh:12-30 | exactly the missing directories, with their attributes |
| `BackupCreate.KeptStep` | scripts/installer/lib/backup.sh:33-62 | one line adds to the closed form what copying one path adds |
| `BackupConserved.RestoreConserves` | scripts/installer/lib/backup.sh:280-329 | in whatever order files are found, unless there is legacy FRR configuration: restoring completes, the backup is in place except for hidden top-level entries, every target file that differed survives under its suffixed name, all else is untouched, and nothing else appears |
| `BackupConserved.ConservedIff` | scripts/installer/lib/backup.sh:280-329 | in whatever order files are found: restoring completes and conserves everything **if and only if** the backup does not hold a per-daemon zebra.conf without an frr.conf |
| `BackupConserved.SudoersSurvivor` | scripts/installer/lib/backup.sh:308-320 | a differing file anywhere below etc/sudoers.d survives as its name with `.default` |
| `BackupConserved.OtherSurvivor` | scripts/installer/lib/backup.sh:308-320 | every other differing file survives as its name with `-default` |
| `BackupConserved.InPlace` | scripts/installer/lib/backup.sh:324-328 | entries below a top-level name are put in place unless that name begins with a dot |
| `BackupConserved.LegacyLoses` | scripts/installer/lib/backup.sh:292-301 | with such configuration, restoring stops half-way, or the target ends without the frr.conf that it had, and vtysh.conf bears its suffixed name |
| `BackupConserved.LegacyInstance` | scripts/installer/lib/backup.sh:292-301 | a concrete backup and target where this happens without an error |
| `BackupConserved.UpgradeKeeps` | scripts/installer/lib/backup.sh:193-329 | backup and restore together: a kept file of the old system is in the new one as it was |
| `BackupConserved.Renaming` | scripts/installer/lib/backup.sh:286-322 | renaming in any order gives the same target |
| `BackupConserved.AsidesDiffer` | scripts/installer/lib/backup.sh:308-320 | two files never get the same suffixed name |
| `BackupRestore.Restore.RestoreBackup` | scripts/installer/lib/backup.sh:280-329 | the target after the loops, as a function of the target before |
| `BackupRestore.Restore.RenameExisting` | scripts/installer/lib/backup.sh:287-320 | one file, with the legacy branch and the global suffix |
| `BridgeVlan.Parse` | recipes-support/libnl/libnl/0005-bridge-vlan-add-per-vlan-stp-state-object-and-cache.patch:270-334 | after a message, each VLAN of its interface has the state of the last run that holds it (or is gone, for deletions), and no other key has changed |
| `BridgeVlan.LookupFinds` | recipes-support/libnl/libnl/0005-bridge-vlan-add-per-vlan-stp-state-object-and-cache.patch:294-323 | by the fields of the message: a lookup finds the last entry with the VLAN, from its first id to the end of its range, or the one id without a range, with the family of the message and the state of the entry, or 0 without one |
| `BridgeVlan.LookupFindsNone` | recipes-support/libnl/libnl/0005-bridge-vlan-add-per-vlan-stp-state-object-and-cache.patch:353-361 | after a deletion message no VLAN of its entries is found |
| `BridgeVlan.LookupKeeps` | recipes-support/libnl/libnl/0005-bridge-vlan-add-per-vlan-stp-state-object-and-cache.patch:294-323 | VLANs of no entry, and other interfaces, are as before |
| `BridgeVlan.RunOfThree` | recipes-support/libnl/libnl/0005-bridge-vlan-add-per-vlan-stp-state-object-and-cache.patch:306-323 | an instance with one entry of three VLANs |
| `BridgeVlan.CompareIff` | recipes-support/libnl/libnl/0005-bridge-vlan-add-per-vlan-stp-state-object-and-cache.patch:216-233 | an attribute is reported exactly if it was asked for and differs |
| `BridgeVlan.ParseRun` | recipes-support/libnl/libnl/0005-bridge-vlan-add-per-vlan-stp-state-object-and-cache.patch:311-330 | one run, up to the largest VLAN id |
| `BridgeVlan.VlanCache.Include` | recipes-support/libnl/libnl/0005-bridge-vlan-add-per-vlan-stp-state-object-and-cache.patch:216-233 | one object per identity: it replaces or removes its predecessor |
| `BridgeVlan.VlanCache.Get` | recipes-support/libnl/libnl/0005-bridge-vlan-add-per-vlan-stp-state-object-and-cache.patch:475-493 | finds exactly what the table holds |
| `BridgeVlan.SameIdIff` | recipes-support/libnl/libnl/0005-bridge-vlan-add-per-vlan-stp-state-object-and-cache.patch:350 | two objects are one exactly if interface and VLAN agree |
| `BridgeVlan.TableHas` | recipes-support/libnl/libnl/0005-bridge-vlan-add-per-vlan-stp-state-object-and-cache.patch:475-493 | a cache with unique identities is a table |

## Left out

- VpwsWire.WireIff: configurations with VLAN 0, which the application accepts, because the untagged match it then makes is another property.
- Packet-in handling, the pcap dump, logging and the effect of the table 60 copies to the controller (the messages are in the log).
- SffDriver.Port.ReadWrite: what follows a refused access (`wrapped`), because the driver then loops over a negative status taken as an unsigned length, past any image.
- SffDriver.Port.ReadWrite: the image after an unclean write that falls short, and data integrity of an access that starts with another page selected; only shape and status are stated then.
- The SFP-MSA branch of `sff_8436_page_legal`, which the probe function never selects, and the mutex around transfers.
- SmbusDriver.PciDevice.SmbusWrite: electrical effects of disabling the controller; the model's bus sees only the STOP that follows.
- SffTransceiver.Transceiver.Fetch: the switch in `fpga_smbus_access` from transaction size to length (one byte or two here), and the I2C core between the two drivers.
- The ioctls, which only choose length and channel; interrupts; sysfs attributes of both drivers.
- SmbusIsolation.DriverSerializable: `fpga_init_smbus` in parallel with transfers, which takes no semaphore.
- WiredSafety.MultiAdmission: requests that the kernel refuses, and entries on other ports for the same address.
- WiredDriver.Authenticator.RtmDelneigh: whether the departing station is deauthenticated or disassociated, which only changes messages to it.
- WiredDriver.Authenticator.Init: sockets, the wait for the bridge and its failure paths.
- RADIUS attributes, EAP methods, session timeouts, VLAN assignment and the MAB control events.
- Systemd service state, the late `/etc/gshadow` fix-up and the removal of empty directories in `backup.sh`, and file ownership and times beyond one attribute.
- BackupRestore.Restore.RestoreBackup: moving onto an existing directory, which puts the file inside; copying over an entry of another kind.
- BridgeVlan.Parse: a cache callback that fails half-way through a message, and objects without all attributes set.
- The installer's partitioning and boot loader code, the other patches and the recipes, which are configuration or fragments of code not shown.
