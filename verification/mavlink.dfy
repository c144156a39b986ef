/**
 * Integer widths, message ids and enumeration values of the MAVLink common message set
 * that the ground station uses, and the station's own system/component ids.
 */
module MavLink {

  /** `uint8_t`, as a bit-vector so flag tests are bitwise. */
  type uint8 = bv8

  newtype int16 = x: int | -0x8000 <= x < 0x8000
  newtype int32 = x: int | -0x8000_0000 <= x < 0x8000_0000
  newtype uint32 = x: int | 0 <= x < 0x1_0000_0000

  // Message ids (MAVLink common message set).
  const MsgIdHeartbeat: nat := 0
  const MsgIdParamRequestList: nat := 21
  const MsgIdParamValue: nat := 22
  const MsgIdParamSet: nat := 23
  const MsgIdAttitude: nat := 30
  const MsgIdGlobalPositionInt: nat := 33
  const MsgIdManualControl: nat := 69
  const MsgIdCommandLong: nat := 76
  const MsgIdStatusText: nat := 253

  /** MAV_TYPE_GCS */
  const MavTypeGcs: uint8 := 6
  /** MAV_AUTOPILOT_INVALID */
  const MavAutopilotInvalid: uint8 := 8
  /** MAV_MODE_FLAG_CUSTOM_MODE_ENABLED */
  const MavModeFlagCustomModeEnabled: uint8 := 1
  /** MAV_MODE_FLAG_SAFETY_ARMED */
  const MavModeFlagSafetyArmed: uint8 := 128
  /** MAV_STATE_ACTIVE */
  const MavStateActive: uint8 := 4
  /** MAV_PARAM_TYPE_REAL32 */
  const MavParamTypeReal32: uint8 := 9

  /** MAV_CMD_NAV_TAKEOFF */
  const MavCmdNavTakeoff: nat := 22
  /** MAV_CMD_PREFLIGHT_CALIBRATION */
  const MavCmdPreflightCalibration: nat := 241
  /** MAV_CMD_COMPONENT_ARM_DISARM */
  const MavCmdComponentArmDisarm: nat := 400

  /** MAVLINK_MAX_PACKET_LEN for MAVLink 2: 255 payload + 12 framing/CRC + 13 signature bytes. */
  const MaxPacketLen: nat := 280

  /** GCS_SYSTEM_ID, GCS_COMP_ID, TARGET_SYSTEM_ID and TARGET_COMP_ID. */
  const GcsSystemId: uint8 := 255
  const GcsCompId: uint8 := 25
  const TargetSystemId: uint8 := 1
  const TargetCompId: uint8 := 1
}
