/** `bacnet_config_t` and its built-in values. */
module BacnetConfig {

  datatype Config = Config(
    targetDeviceStart: nat, targetDeviceEnd: nat, whoisRetry: nat, responseTimeoutMs: nat,
    localInstanceId: nat, localMaxApdu: nat,
    interfaceName: string, port: nat, broadcastAddress: string,
    mstpPort: string, mstpBaud: nat, mstpMac: nat, mstpMaxMaster: nat, mstpMaxFrames: nat,
    readTimeoutMs: nat, writeTimeoutMs: nat, defaultPriority: nat, cacheExpiryMs: nat, cacheStrategy: nat,
    datalinkMaintenanceMs: nat,
    maxReconnectAttempts: nat, reconnectIntervalMs: nat,
    hotConfigEnabled: int, hotConfigPollingMs: nat)

  const DEFAULTS := Config(
    5678, 5678, 3, 5000,
    4194303, 1476,
    "", 47808, "255.255.255.255",
    "", 38400, 1, 127, 1,
    6000, 6000, 8, 1000, 0,
    1000,
    5, 3000,
    1, 1000)
}
