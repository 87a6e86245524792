/**
 * The settings record of one account (TelegramConfig in python.py).
 * The sender only reads it; every field the source declares is kept, including
 * the flags that no part of the sender consults.
 */
module TelegramConfig {

  import opened Wrappers

  datatype Config = Config(
    apiId: Option<int>,
    apiHash: Option<string>,
    phone: Option<string>,
    sessionFile: Option<string>,
    // Manual delay range in seconds, used when autoAntiFlood is off.
    minDelay: int,
    maxDelay: int,
    autoAntiFlood: bool,
    // Stored and edited, never consulted by the sender.
    actionsTimeoutAfter: int,
    actionsTimeoutDuration: int,
    autoTimeout: bool,
    simulateActions: bool,
    // Recipient classes: only messageToUsers and messageToContacts have an effect.
    messageToUsers: bool,
    messageToGroups: bool,
    messageToChannels: bool,
    messageToComments: bool,
    messageToContacts: bool,
    // Stored and edited, never consulted by the sender.
    joinRandomGroups: bool,
    groupGenerationById: bool,
    groupGenerationByUser: bool,
    joinGroupsFromFile: bool,
    // 0 (or less) means no limit on successful sends.
    maxMessages: int,
    // The candidate message texts; one is chosen at random per attempt.
    messages: seq<string>
  )
}
