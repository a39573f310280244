/** Constants shared by the whole system: the width of its counters, its topics and its tasks. */
module Common {
  const U32: nat := 0x1_0000_0000

  const TOPIC_TEMP_UPDATE: nat := 0
  const TOPIC_BUTTON_PRESS: nat := 1
  const TOPIC_SYSTEM_FAULT: nat := 2
  const TOPIC_HEARTBEAT: nat := 3
  const TOPIC_SENSOR_READING: nat := 4
  const TOPIC_THRESHOLD_CROSSED: nat := 5
  const TOPIC_DEVICE_STATUS: nat := 6
  const TOPIC_CONFIG_UPDATE: nat := 7
  const TOPIC_COMMAND_RECEIVED: nat := 8
  const TOPIC_ACTUATOR_COMMAND: nat := 9
  const TOPIC_ACTUATOR_STATUS: nat := 10
  const TOPIC_STORAGE_LOG: nat := 11
  const TOPIC_NETWORK_STATUS: nat := 12
  const TOPIC_DIAGNOSTIC_REPORT: nat := 13
  const TOPIC_POWER_EVENT: nat := 14
  const TOPIC_OTA_EVENT: nat := 15
  const TOPIC_SECURITY_EVENT: nat := 16
  const TOPIC_FRAME_READY: nat := 17
  const TOPIC_MAX: nat := 18

  const TASK_ID_SENSOR_MANAGER: nat := 0
  const TASK_ID_HEALTH_MANAGER: nat := 8
  const TASK_ID_MAX: nat := 10
}
