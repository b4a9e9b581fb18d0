/**
 * The two id namespaces: ids made offline by the client (`offline_…`) and ids
 * the server assigns (`server_…`).
 */
module Identity {
  import Cache
  import Api

  /** An id generated offline never equals one the server assigns, whatever the clocks and random digits. */
  lemma OfflineNeverServer(millis: string, random36: string, clock: Api.Clock)
    ensures Cache.GenerateId(millis, random36) != Api.ServerId(clock)
    ensures !("server_" <= Cache.GenerateId(millis, random36))
  {
    var id := Cache.GenerateId(millis, random36);
    assert id[0] == 'o';
    assert Api.ServerId(clock)[0] == 's';
  }
}
